/**
 * The code of the two cores that moves satellite commands, one method for every stretch
 * of C that runs between two kernel calls. Messages are stored in the eight buffers of
 * sat_pool; queues, threads and the free list hold buffer numbers. SatPipeline sees only
 * messages: that every method is one of its steps means that no buffer is ever in two
 * places, read after its release, or overwritten while somebody relies on its contents.
 */
module SatCores {
  import opened Machine
  import opened Runs
  import opened SatPipeline

  // Where each context of the network core stands, and the buffer it holds there.
  datatype Callback = CbIdle | CbAlloc(m: Message) | CbPut(b: nat)
  datatype TxThread = TxIdle | TxProcess(b: nat) | TxUnref(b: nat) | TxAlloc | TxPut(b: nat)
  datatype ResponseLoop = LoopIdle | LoopSend(b: nat) | LoopUnref(b: nat)

  // Where a buffer can be.
  datatype Place = Free | InTxQueue | InRxQueue | ByCallback | ByTxThread | ByResponseLoop

  type Pool = s: seq<Message> | |s| == POOL_SIZE witness seq(POOL_SIZE, _ => OK_MESSAGE)
  type Places = s: seq<Place> | |s| == POOL_SIZE witness seq(POOL_SIZE, _ => Free)

  /** A queue holds buffers whose place it is, none twice. */
  predicate QueueHas(places: Places, p: Place, q: seq<nat>) {
    && (forall i :: 0 <= i < |q| ==> q[i] < POOL_SIZE && places[q[i]] == p)
    && (forall i, j :: 0 <= i < j < |q| ==> q[i] != q[j])
  }

  predicate ContextHas(places: Places, p: Place, held: Option<nat>) {
    held.Some? ==> held.value < POOL_SIZE && places[held.value] == p
  }

  function HeldByCallback(c: Callback): Option<nat> {
    if c.CbPut? then Some(c.b) else None
  }

  function HeldByTxThread(t: TxThread): Option<nat> {
    if t.TxIdle? || t.TxAlloc? then None else Some(t.b)
  }

  function HeldByLoop(r: ResponseLoop): Option<nat> {
    if r.LoopIdle? then None else Some(r.b)
  }

  function Single(held: Option<nat>): seq<nat> {
    if held.Some? then [held.value] else []
  }

  /** The messages in a queue of buffers. */
  function Messages(pool: Pool, q: seq<nat>): (ms: seq<Message>)
    requires forall i :: 0 <= i < |q| ==> q[i] < POOL_SIZE
    ensures |ms| == |q|
  {
    seq(|q|, i requires 0 <= i < |q| => pool[q[i]])
  }

  function ReceiverOf(pool: Pool, c: Callback): Receiver
    requires c.CbPut? ==> c.b < POOL_SIZE
  {
    match c
    case CbIdle => RxIdle
    case CbAlloc(m) => RxAlloc(m)
    case CbPut(b) => RxPut(pool[b])
  }

  function WorkerOf(pool: Pool, t: TxThread): Worker
    requires t.TxProcess? ==> t.b < POOL_SIZE
  {
    match t
    case TxIdle => WkIdle
    case TxProcess(b) => WkProcess(pool[b])
    case TxUnref(_) => WkUnref
    case TxAlloc => WkAlloc
    case TxPut(_) => WkPut
  }

  /** The response that sat_tx_thread has written is still in its buffer. */
  predicate ResponseReady(pool: Pool, t: TxThread) {
    t.TxPut? ==> t.b < POOL_SIZE && pool[t.b] == OK_MESSAGE
  }

  function ResponderOf(pool: Pool, r: ResponseLoop): Responder
    requires r.LoopSend? ==> r.b < POOL_SIZE
  {
    match r
    case LoopIdle => RsIdle
    case LoopSend(b) => RsSend(pool[b])
    case LoopUnref(_) => RsUnref
  }

  // ------------------------------------------------- one buffer moves to another place

  lemma Taken(places: Places, p: Place, q: seq<nat>, to: Place)
    requires QueueHas(places, p, q) && q != [] && to != p
    ensures QueueHas(places[q[0] := to], p, q[1..])
  {
  }

  lemma Put(places: Places, p: Place, q: seq<nat>, b: nat)
    requires QueueHas(places, p, q) && b < POOL_SIZE && places[b] != p
    ensures QueueHas(places[b := p], p, q + [b])
  {
  }

  lemma Released(places: Places, p: Place, q: seq<nat>, b: nat)
    requires QueueHas(places, p, q) && b < POOL_SIZE && places[b] != p
    ensures QueueHas(places[b := p], p, [b] + q)
  {
  }

  lemma Elsewhere(places: Places, p: Place, q: seq<nat>, b: nat, to: Place)
    requires QueueHas(places, p, q) && b < POOL_SIZE && places[b] != p && to != p
    ensures QueueHas(places[b := to], p, q)
  {
  }

  /** Writing a buffer that is somewhere else leaves the messages of a queue alone. */
  lemma Unseen(pool: Pool, places: Places, p: Place, q: seq<nat>, b: nat, m: Message)
    requires QueueHas(places, p, q) && b < POOL_SIZE && places[b] != p
    ensures Messages(pool[b := m], q) == Messages(pool, q)
  {
  }

  /** Distinct numbers below n are at most n. */
  lemma {:induction false} Pigeonhole(q: seq<nat>, n: nat)
    requires forall i, j :: 0 <= i < j < |q| ==> q[i] != q[j]
    requires forall i :: 0 <= i < |q| ==> q[i] < n
    ensures |q| <= n
  {
    if q != [] {
      var first := q[0];
      assert first < n;
      if k :| 0 <= k < |q| && q[k] == n - 1 {
        Pigeonhole(q[..k] + q[k + 1..], n - 1);
      } else {
        Pigeonhole(q, n - 1);
      }
    }
  }

  lemma NoRepeats(places: Places, free: seq<nat>, tx: seq<nat>, rx: seq<nat>, rest: seq<nat>)
    requires QueueHas(places, Free, free) && QueueHas(places, InTxQueue, tx) && QueueHas(places, InRxQueue, rx)
    requires forall i, j :: 0 <= i < j < |rest| ==> rest[i] != rest[j]
    requires forall i :: 0 <= i < |rest| ==> rest[i] !in free && rest[i] !in tx && rest[i] !in rx
    ensures var all := free + tx + rx + rest;
            forall i, j :: 0 <= i < j < |all| ==> all[i] != all[j]
  {
    assert forall b :: b in free ==> places[b] == Free;
    assert forall b :: b in tx ==> places[b] == InTxQueue;
    assert forall b :: b in rx ==> places[b] == InRxQueue;
    var queued := free + tx;
    assert forall i, j :: 0 <= i < j < |queued| ==> queued[i] != queued[j];
  }

  class Cores {
    var caller: Caller
    var satSem: nat
    var toNet: seq<Message>
    var toApp: seq<Message>
    const pool: array<Message>
    var free: seq<nat>
    var callback: Callback
    var txQueue: seq<nat>
    var txThread: TxThread
    var rxQueue: seq<nat>
    var responseLoop: ResponseLoop
    ghost var places: Places
    ghost var log: Log

    /** The eight buffers are spread over the places, each in exactly one. */
    ghost predicate Valid()
      reads this, pool
    {
      && pool.Length == POOL_SIZE
      && QueueHas(places, Free, free)
      && QueueHas(places, InTxQueue, txQueue)
      && QueueHas(places, InRxQueue, rxQueue)
      && ContextHas(places, ByCallback, HeldByCallback(callback))
      && ContextHas(places, ByTxThread, HeldByTxThread(txThread))
      && ContextHas(places, ByResponseLoop, HeldByLoop(responseLoop))
      && |free| + |txQueue| + |rxQueue| + One(HeldByCallback(callback).Some?)
         + One(HeldByTxThread(txThread).Some?) + One(HeldByLoop(responseLoop).Some?) == POOL_SIZE
      && ResponseReady(pool[..], txThread)
    }

    /** What the pipeline model sees: messages instead of buffers. */
    ghost function View(): State
      requires Valid()
      reads this, pool
    {
      State(caller, satSem, toNet, toApp, |free|, ReceiverOf(pool[..], callback),
            Messages(pool[..], txQueue), WorkerOf(pool[..], txThread),
            Messages(pool[..], rxQueue), ResponderOf(pool[..], responseLoop), log)
    }

    ghost function Held(): seq<nat>
      reads this
    {
      Single(HeldByCallback(callback)) + Single(HeldByTxThread(txThread)) + Single(HeldByLoop(responseLoop))
    }

    lemma HeldApart()
      requires Valid()
      ensures |free| + |txQueue| + |rxQueue| + |Held()| == POOL_SIZE
      ensures forall i, j :: 0 <= i < j < |Held()| ==> Held()[i] != Held()[j]
      ensures forall b :: b in Held() ==> b < POOL_SIZE && b !in free && b !in txQueue && b !in rxQueue
    {
      assert forall b :: b in Held() ==>
        b < POOL_SIZE && places[b] != Free && places[b] != InTxQueue && places[b] != InRxQueue;
    }

    lemma NoneLost(b: nat)
      requires Valid() && b < POOL_SIZE
      ensures b in free || b in txQueue || b in rxQueue || b in Held()
    {
      HeldApart();
      var rest := Held() + [b];
      if b !in free && b !in txQueue && b !in rxQueue && b !in Held() {
        NoRepeats(places, free, txQueue, rxQueue, rest);
        Pigeonhole(free + txQueue + rxQueue + rest, POOL_SIZE);
      }
    }

    /** No buffer is lost or duplicated: each of the eight is in exactly one place. */
    lemma InOnePlace(b: nat)
      requires Valid() && b < POOL_SIZE
      ensures One(b in free) + One(b in txQueue) + One(b in rxQueue)
              + One(HeldByCallback(callback) == Some(b)) + One(HeldByTxThread(txThread) == Some(b))
              + One(HeldByLoop(responseLoop) == Some(b)) == 1
    {
      NoneLost(b);
    }

    /** Moving one buffer disturbs no place it neither leaves nor enters. */
    lemma Moves(b: nat, to: Place)
      requires Valid() && b < POOL_SIZE
      ensures var from, moved := places[b], places[b := to];
              && (Free != from && Free != to ==> QueueHas(moved, Free, free))
              && (InTxQueue != from && InTxQueue != to ==> QueueHas(moved, InTxQueue, txQueue))
              && (InRxQueue != from && InRxQueue != to ==> QueueHas(moved, InRxQueue, rxQueue))
    {
      forall p, q | QueueHas(places, p, q) && places[b] != p && to != p
        ensures QueueHas(places[b := to], p, q)
      {
        Elsewhere(places, p, q, b, to);
      }
    }

    /** Writing a buffer is seen only from the place where it is. */
    lemma Writes(b: nat, m: Message)
      requires Valid() && b < POOL_SIZE
      ensures var p, written := places[b], pool[..][b := m];
              && (InTxQueue != p ==> Messages(written, txQueue) == Messages(pool[..], txQueue))
              && (InRxQueue != p ==> Messages(written, rxQueue) == Messages(pool[..], rxQueue))
              && (ByCallback != p ==> ReceiverOf(written, callback) == ReceiverOf(pool[..], callback))
              && (ByTxThread != p ==> WorkerOf(written, txThread) == WorkerOf(pool[..], txThread))
              && (ByTxThread != p ==> ResponseReady(written, txThread))
              && (ByResponseLoop != p ==> ResponderOf(written, responseLoop) == ResponderOf(pool[..], responseLoop))
    {
      if places[b] != InTxQueue {
        Unseen(pool[..], places, InTxQueue, txQueue, b, m);
      }
      if places[b] != InRxQueue {
        Unseen(pool[..], places, InRxQueue, rxQueue, b, m);
      }
    }

    /** net_buf_alloc and net_buf_add_mem: a free buffer is written and goes to a context. */
    method AllocWrite(m: Message, ghost to: Place) returns (b: nat)
      requires Valid() && free != [] && (to == ByCallback || to == ByTxThread)
      modifies this`free, this`places, pool
      ensures old(free) == [b] + free && b < POOL_SIZE && old(places[b]) == Free
      ensures places == old(places)[b := to] && pool[..] == old(pool[..])[b := m]
      ensures QueueHas(places, Free, free)
      ensures QueueHas(places, InTxQueue, txQueue) && QueueHas(places, InRxQueue, rxQueue)
      ensures Messages(pool[..], txQueue) == old(Messages(pool[..], txQueue))
      ensures Messages(pool[..], rxQueue) == old(Messages(pool[..], rxQueue))
      ensures ReceiverOf(pool[..], callback) == old(ReceiverOf(pool[..], callback))
      ensures WorkerOf(pool[..], txThread) == old(WorkerOf(pool[..], txThread))
      ensures ResponseReady(pool[..], txThread)
      ensures ResponderOf(pool[..], responseLoop) == old(ResponderOf(pool[..], responseLoop))
    {
      b := free[0];
      Taken(places, Free, free, to);
      Moves(b, to);
      Writes(b, m);
      ghost var written := pool[..][b := m];
      pool[b] := m;
      assert pool[..] == written;
      free, places := free[1..], places[b := to];
    }

    /** net_buf_unref. Whatever the buffer holds from now on (`stale`), nobody reads it. */
    method Unref(b: nat, stale: Message)
      requires Valid() && b < POOL_SIZE && (places[b] == ByTxThread || places[b] == ByResponseLoop)
      modifies this`free, this`places, pool
      ensures free == [b] + old(free) && places == old(places)[b := Free]
      ensures QueueHas(places, Free, free)
      ensures QueueHas(places, InTxQueue, txQueue) && QueueHas(places, InRxQueue, rxQueue)
      ensures Messages(pool[..], txQueue) == old(Messages(pool[..], txQueue))
      ensures Messages(pool[..], rxQueue) == old(Messages(pool[..], rxQueue))
      ensures ReceiverOf(pool[..], callback) == old(ReceiverOf(pool[..], callback))
      ensures old(places[b]) != ByTxThread ==>
        WorkerOf(pool[..], txThread) == old(WorkerOf(pool[..], txThread)) && ResponseReady(pool[..], txThread)
      ensures old(places[b]) != ByResponseLoop ==>
        ResponderOf(pool[..], responseLoop) == old(ResponderOf(pool[..], responseLoop))
    {
      Released(places, Free, free, b);
      Moves(b, Free);
      Writes(b, stale);
      ghost var written := pool[..][b := stale];
      pool[b] := stale;
      assert pool[..] == written;
      free, places := [b] + free, places[b := Free];
    }

    constructor (token: nat)
      ensures Valid() && View() == Init(token) && fresh(pool)
    {
      caller, satSem, toNet, toApp := Outside, token, [], [];
      pool := new Message[POOL_SIZE](_ => OK_MESSAGE);
      free, txQueue, rxQueue := [0, 1, 2, 3, 4, 5, 6, 7], [], [];
      callback, txThread, responseLoop := CbIdle, TxIdle, LoopIdle;
      places := seq(POOL_SIZE, _ => Free);
      log := Log([], [], [], [], 0, 0, 0, 0);
    }

    // -------------------------------------------------------- the application core

    method IpcServiceSend(m: Message, accepted: bool)
      requires Valid()
      modifies this
      ensures Valid() && View() == Step(old(View()), CallSend(m, accepted))
    {
      if caller.Outside? && accepted {
        toNet := toNet + [m];
        caller, log := Sent, log.(sent := log.sent + [m]);
      }
    }

    method TakeSatSem()
      requires Valid()
      modifies this
      ensures Valid() && View() == Step(old(View()), SemTake)
    {
      if caller.Sent? {
        if satSem > 0 {
          satSem := satSem - 1;
          caller, log := Outside, log.(successes := log.successes + 1);
        } else {
          caller := Pended;
        }
      }
    }

    method TakeExpires()
      requires Valid()
      modifies this
      ensures Valid() && View() == Step(old(View()), TakeTimeout)
    {
      if caller.Pended? {
        caller, log := Outside, log.(timeouts := log.timeouts + 1);
      }
    }

    method TakeReturns()
      requires Valid()
      modifies this
      ensures Valid() && View() == Step(old(View()), TakeReturn)
    {
      if caller.Granted? {
        caller, log := Outside, log.(successes := log.successes + 1);
      }
    }

    method GiveSatSem()
      requires Valid()
      modifies this`caller, this`satSem, this`log
      ensures Valid() && View() == Give(old(View()))
    {
      if caller.Pended? {
        caller := Granted;
      } else if satSem < 1 {
        satSem := satSem + 1;
      } else {
        log := log.(saturated := log.saturated + 1);
      }
    }

    /** ep_recv of the application core. */
    method AppEpRecv()
      requires Valid()
      modifies this
      ensures Valid() && View() == Step(old(View()), Deliver)
    {
      if toApp != [] {
        var cmd := toApp[0].cmd;
        toApp := toApp[1..];
        if cmd == OK {
          GiveSatSem();
        }
      }
    }

    // ------------------------------------------------------------- the network core

    /** ep_recv of the network core is called. */
    method NetEpRecv()
      requires Valid()
      modifies this
      ensures Valid() && View() == Step(old(View()), RecvBegin)
    {
      if callback.CbIdle? && toNet != [] {
        callback, toNet := CbAlloc(toNet[0]), toNet[1..];
      }
    }

    /** net_buf_alloc and net_buf_add_mem in ep_recv; the callback waits while there is no buffer. */
    method NetEpRecvAlloc()
      requires Valid()
      modifies this, pool
      ensures Valid() && View() == Step(old(View()), RecvAlloc)
    {
      if callback.CbAlloc? && free != [] {
        var b := AllocWrite(callback.m, ByCallback);
        callback := CbPut(b);
      }
    }

    method NetEpRecvPut()
      requires Valid()
      modifies this
      ensures Valid() && View() == Step(old(View()), RecvPut)
    {
      if callback.CbPut? {
        var b := callback.b;
        Put(places, InTxQueue, txQueue, b);
        Moves(b, InTxQueue);
        assert Messages(pool[..], txQueue + [b]) == Messages(pool[..], txQueue) + [pool[b]];
        txQueue, callback, places := txQueue + [b], CbIdle, places[b := InTxQueue];
      }
    }

    method SatTxGet()
      requires Valid()
      modifies this
      ensures Valid() && View() == Step(old(View()), WorkGet)
    {
      if txThread.TxIdle? && txQueue != [] {
        var b := txQueue[0];
        Taken(places, InTxQueue, txQueue, ByTxThread);
        Moves(b, ByTxThread);
        assert Messages(pool[..], txQueue[1..]) == Messages(pool[..], txQueue)[1..];
        txQueue, txThread, places := txQueue[1..], TxProcess(b), places[b := ByTxThread];
      }
    }

    /** hubble_sat_process over the bytes in the buffer; an error is only logged. */
    method SatTxProcess(board: int)
      requires Valid()
      modifies this
      ensures Valid() && View() == Step(old(View()), WorkProcess(board))
    {
      if txThread.TxProcess? {
        var m := pool[txThread.b];
        log := log.(processed := log.processed + [m], results := log.results + [Process(m, board)]);
        txThread := TxUnref(txThread.b);
      }
    }

    method SatTxUnref(stale: Message)
      requires Valid()
      modifies this, pool
      ensures Valid() && View() == Step(old(View()), WorkUnref)
    {
      if txThread.TxUnref? {
        Unref(txThread.b, stale);
        txThread := TxAlloc;
      }
    }

    /** The response is allocated and written; sat_tx_thread waits while there is no buffer. */
    method SatTxAlloc()
      requires Valid()
      modifies this, pool
      ensures Valid() && View() == Step(old(View()), WorkAlloc)
    {
      if txThread.TxAlloc? && free != [] {
        var b := AllocWrite(OK_MESSAGE, ByTxThread);
        txThread := TxPut(b);
      }
    }

    method SatTxPut()
      requires Valid()
      modifies this
      ensures Valid() && View() == Step(old(View()), WorkPut)
    {
      if txThread.TxPut? {
        var b := txThread.b;
        Put(places, InRxQueue, rxQueue, b);
        Moves(b, InRxQueue);
        assert Messages(pool[..], rxQueue + [b]) == Messages(pool[..], rxQueue) + [pool[b]];
        rxQueue, txThread, places := rxQueue + [b], TxIdle, places[b := InRxQueue];
      }
    }

    method ResponseGet()
      requires Valid()
      modifies this
      ensures Valid() && View() == Step(old(View()), RespGet)
    {
      if responseLoop.LoopIdle? && rxQueue != [] {
        var b := rxQueue[0];
        Taken(places, InRxQueue, rxQueue, ByResponseLoop);
        Moves(b, ByResponseLoop);
        assert Messages(pool[..], rxQueue[1..]) == Messages(pool[..], rxQueue)[1..];
        rxQueue, responseLoop, places := rxQueue[1..], LoopSend(b), places[b := ByResponseLoop];
      }
    }

    /** The result of ipc_service_send is ignored. */
    method ResponseSend(accepted: bool)
      requires Valid()
      modifies this
      ensures Valid() && View() == Step(old(View()), RespSend(accepted))
    {
      if responseLoop.LoopSend? {
        var m := pool[responseLoop.b];
        assert View().responder == RsSend(m);
        ghost var answered := log.(answers := log.answers + [m]);
        if accepted {
          toApp, log := toApp + [m], answered;
        } else {
          log := answered.(dropped := answered.dropped + 1);
        }
        responseLoop := LoopUnref(responseLoop.b);
      }
    }

    method ResponseUnref(stale: Message)
      requires Valid()
      modifies this, pool
      ensures Valid() && View() == Step(old(View()), RespUnref)
    {
      if responseLoop.LoopUnref? {
        Unref(responseLoop.b, stale);
        responseLoop := LoopIdle;
      }
    }

    /** `stale` is what a buffer holds once it is released. */
    method Perform(a: Action, stale: Message)
      requires Valid()
      modifies this, pool
      ensures Valid() && View() == Step(old(View()), a)
    {
      match a
      case CallSend(m, accepted) => IpcServiceSend(m, accepted);
      case SemTake => TakeSatSem();
      case TakeTimeout => TakeExpires();
      case TakeReturn => TakeReturns();
      case Deliver => AppEpRecv();
      case RecvBegin => NetEpRecv();
      case RecvAlloc => NetEpRecvAlloc();
      case RecvPut => NetEpRecvPut();
      case WorkGet => SatTxGet();
      case WorkProcess(board) => SatTxProcess(board);
      case WorkUnref => SatTxUnref(stale);
      case WorkAlloc => SatTxAlloc();
      case WorkPut => SatTxPut();
      case RespGet => ResponseGet();
      case RespSend(accepted) => ResponseSend(accepted);
      case RespUnref => ResponseUnref(stale);
    }

    /** Any interleaving of the code above is a run of the pipeline and keeps its invariant. */
    method Interleave(schedule: seq<Action>, stale: nat -> Message, ghost token: nat)
      requires Valid() && Inv(View(), token)
      modifies this, pool
      ensures Valid() && View() == Run(old(View()), schedule) && Inv(View(), token)
    {
      ghost var begin := View();
      for i := 0 to |schedule|
        invariant Valid() && View() == Run(begin, schedule[..i])
      {
        Perform(schedule[i], stale(i));
        assert schedule[..i + 1] == schedule[..i] + [schedule[i]];
        ExecSnoc(Step, begin, schedule[..i], schedule[i]);
      }
      assert schedule[..|schedule|] == schedule;
      InvRun(begin, schedule, token);
    }
  }
}
