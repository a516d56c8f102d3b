/** The table of satellite passes and the choice the scheduler makes from it. */
module PassSchedule {
  import opened Machine

  const CAPACITY: nat := 300
  const ENOSPC: int := 28

  datatype Pass = Pass(timestamp: uint32, duration: uint16)

  predicate Sorted(table: seq<Pass>) {
    forall i, j :: 0 <= i < j < |table| ==> table[i].timestamp <= table[j].timestamp
  }

  /** The first entry at or after `from` that starts after second `sec`, or the length. */
  function FirstFuture(table: seq<Pass>, from: nat, sec: nat): (i: nat)
    requires from <= |table|
    ensures from <= i <= |table|
    ensures forall j :: from <= j < i ==> table[j].timestamp <= sec
    ensures i < |table| ==> sec < table[i].timestamp
    decreases |table| - from
  {
    if from == |table| || sec < table[from].timestamp then from
    else FirstFuture(table, from + 1, sec)
  }

  /** Passes appended while the table has room; the rest is refused. */
  function AppendAll(table: seq<Pass>, more: seq<Pass>): (t: seq<Pass>)
    requires |table| <= CAPACITY
    ensures |t| == Min(|table| + |more|, CAPACITY) && table <= t <= table + more
  {
    table + more[..Min(|more|, CAPACITY - |table|)]
  }

  lemma AppendAllConcat(table: seq<Pass>, first: seq<Pass>, second: seq<Pass>)
    requires |table| <= CAPACITY
    ensures AppendAll(AppendAll(table, first), second) == AppendAll(table, first + second)
  {
  }

  function Flatten(batches: seq<seq<Pass>>): seq<Pass> {
    if batches == [] then [] else Flatten(batches[..|batches| - 1]) + batches[|batches| - 1]
  }

  lemma FlattenSnoc(table: seq<Pass>, batches: seq<seq<Pass>>, k: nat)
    requires |table| <= CAPACITY && k < |batches|
    ensures AppendAll(AppendAll(table, Flatten(batches[..k])), batches[k])
         == AppendAll(table, Flatten(batches[..k + 1]))
  {
    assert batches[..k + 1][..k] == batches[..k];
    AppendAllConcat(table, Flatten(batches[..k]), batches[k]);
  }

  /** Appending never changes a choice already made. */
  lemma AppendsKeepChoice(table: seq<Pass>, longer: seq<Pass>, from: nat, sec: nat)
    requires from <= |table| && table <= longer
    ensures FirstFuture(table, from, sec) < |table| ==>
              FirstFuture(longer, from, sec) == FirstFuture(table, from, sec)
    ensures FirstFuture(table, from, sec) <= FirstFuture(longer, from, sec)
  {
  }

  /** The cursor saves work and nothing else: the same choice is made from the whole table. */
  lemma CursorIsRedundant(table: seq<Pass>, cursor: nat, sec: nat)
    requires cursor <= |table|
    requires forall j :: 0 <= j < cursor ==> table[j].timestamp <= sec
    ensures FirstFuture(table, 0, sec) == FirstFuture(table, cursor, sec)
  {
  }

  /** The scheduler's promise: no pass still to come starts before the one chosen. */
  predicate ChoosesEarliest(table: seq<Pass>, sec: nat) {
    var i := FirstFuture(table, 0, sec);
    forall p :: p in table && sec < p.timestamp ==>
      i < |table| && table[i].timestamp <= p.timestamp
  }

  /** Entry `j` starts no earlier than those before it, or together with one listed earlier still. */
  predicate InTurn(table: seq<Pass>, j: nat)
    requires j < |table|
  {
    forall i :: 0 <= i < j && 0 < table[j].timestamp < table[i].timestamp ==>
      exists k :: 0 <= k < i && table[k].timestamp == table[j].timestamp
  }

  /** Whoever starts earlier is listed first; a table may still repeat starts in any order. */
  predicate StartsInTurn(table: seq<Pass>) {
    forall j :: 0 <= j < |table| ==> InTurn(table, j)
  }

  lemma InTurnIsEarliest(table: seq<Pass>, sec: nat)
    requires StartsInTurn(table)
    ensures ChoosesEarliest(table, sec)
  {
    var i := FirstFuture(table, 0, sec);
    forall j | 0 <= j < |table| && sec < table[j].timestamp
      ensures i < |table| && table[i].timestamp <= table[j].timestamp
    {
      assert InTurn(table, j);
    }
  }

  /** An entry out of turn is missed in the second before it starts. */
  lemma OutOfTurnIsMissed(table: seq<Pass>, j: nat)
    requires j < |table| && !InTurn(table, j)
    ensures table[j].timestamp > 0 && !ChoosesEarliest(table, table[j].timestamp - 1)
  {
    var sec := table[j].timestamp - 1;
    var i :| 0 <= i < j && 0 < table[j].timestamp < table[i].timestamp
             && forall k :: 0 <= k < i ==> table[k].timestamp != table[j].timestamp;
    assert table[j] in table && sec < table[j].timestamp;
    assert FirstFuture(table, 0, sec) <= i;
  }

  /** Which tables keep the promise at every second. */
  lemma EarliestIff(table: seq<Pass>)
    ensures (forall sec: nat :: ChoosesEarliest(table, sec)) <==> StartsInTurn(table)
  {
    if StartsInTurn(table) {
      forall sec: nat
        ensures ChoosesEarliest(table, sec)
      {
        InTurnIsEarliest(table, sec);
      }
    } else {
      var j :| 0 <= j < |table| && !InTurn(table, j);
      OutOfTurnIsMissed(table, j);
    }
  }

  /** A late entry for an early pass is passed over. */
  lemma LateEntryIsMissed()
    ensures var table := [Pass(9, 1), Pass(5, 1)];
            FirstFuture(table, 0, 0) == 0 && !ChoosesEarliest(table, 0)
  {
    assert [Pass(9, 1), Pass(5, 1)][1] in [Pass(9, 1), Pass(5, 1)];
  }

  lemma SortedIsInTurn(table: seq<Pass>)
    requires Sorted(table)
    ensures StartsInTurn(table)
  {
  }

  // --------------------------------------------------------- seconds, milliseconds

  /** The one-shot timer, in milliseconds of the clock it was armed on. */
  function FiresAt(at: nat, timeout: nat): nat {
    at + MSEC_PER_SEC * timeout
  }

  /** No wrap in the unsigned subtraction, and less than a second late. */
  lemma EphemerisArming(at: nat, timestamp: uint32)
    requires at / MSEC_PER_SEC < timestamp
    ensures 0 < timestamp - at / MSEC_PER_SEC < TWO32
    ensures FiresAt(at, timestamp - at / MSEC_PER_SEC) == MSEC_PER_SEC * timestamp + at % MSEC_PER_SEC
    ensures FiresAt(at, timestamp - at / MSEC_PER_SEC) / MSEC_PER_SEC == timestamp
  {
  }
}

/** The transmission window: HUBBLE_FOR_WHILE and the loop body it repeats. */
module TransmitWindow {
  import opened Machine

  /** What the environment does in one iteration: the result of the send, and two durations. */
  datatype Iteration = Iteration(ret: int, took: nat, slept: nat)

  /** The shortest an iteration can be: the sleep, and at least one tick of the clock. */
  function Pace(retransmission: byte): (pace: nat)
    ensures pace >= 1 && pace >= MSEC_PER_SEC * retransmission
    ensures pace == 1 || pace == MSEC_PER_SEC * retransmission
  {
    Max(1, MSEC_PER_SEC * retransmission)
  }

  ghost predicate AllSent(env: nat -> Iteration, n: nat) {
    forall k: nat :: k < n ==> env(k).ret == 0
  }

  ghost predicate Paced(env: nat -> Iteration, retransmission: byte) {
    forall i: nat :: env(i).slept >= MSEC_PER_SEC * retransmission && env(i).took + env(i).slept >= 1
  }

  /** Every iteration but the first begins when the one before it is over. */
  ghost predicate Consecutive(env: nat -> Iteration, starts: seq<nat>) {
    forall k: nat {:trigger env(k)} :: k + 1 < |starts| ==>
      starts[k + 1] == starts[k] + env(k).took + env(k).slept
  }

  lemma OneMoreStart(env: nat -> Iteration, starts: seq<nat>, now: nat)
    requires Consecutive(env, starts)
    requires starts != [] ==>
      now == starts[|starts| - 1] + env(|starts| - 1).took + env(|starts| - 1).slept
    ensures Consecutive(env, starts + [now])
  {
  }

  lemma {:induction false} StartsAreSpaced(env: nat -> Iteration, r: byte, starts: seq<nat>, i: nat)
    requires Paced(env, r) && Consecutive(env, starts) && i < |starts|
    ensures starts[i] >= starts[0] + i * Pace(r)
  {
    if i > 0 {
      StartsAreSpaced(env, r, starts, i - 1);
      assert starts[i] == starts[i - 1] + env(i - 1).took + env(i - 1).slept;
      assert i * Pace(r) == (i - 1) * Pace(r) + Pace(r);
    }
  }

  lemma {:induction false} StartsAreRegular(env: nat -> Iteration, pace: nat, starts: seq<nat>, i: nat)
    requires forall k: nat :: env(k).took + env(k).slept == pace
    requires Consecutive(env, starts) && i < |starts|
    ensures starts[i] == starts[0] + i * pace
  {
    if i > 0 {
      StartsAreRegular(env, pace, starts, i - 1);
      assert starts[i] == starts[i - 1] + (env(i - 1).took + env(i - 1).slept);
      assert i * pace == (i - 1) * pace + pace;
    }
  }

  lemma QuotientBound(n: nat, pace: nat, span: nat)
    requires pace > 0
    ensures n * pace <= span <==> n <= span / pace
  {
    var q := span / pace;
    assert q * pace <= span < (q + 1) * pace;
    if n <= q {
      assert n * pace <= q * pace;
    } else {
      assert n * pace >= (q + 1) * pace;
    }
  }

  lemma LastWithin(n: nat, pace: nat, begin: nat, last: nat, end: int)
    requires pace > 0 && begin + n * pace <= last <= end
    ensures n <= (end - begin) / pace
  {
    QuotientBound(n, pace, end - begin);
  }

  /** At most span / pace + 1 sends start within the window. */
  lemma SendsBound(env: nat -> Iteration, begin: nat, end: int, r: byte, starts: seq<nat>)
    requires Paced(env, r) && Consecutive(env, starts)
    requires starts != [] ==> starts[0] == begin
    requires forall k :: 0 <= k < |starts| ==> starts[k] <= end
    ensures begin <= end ==> |starts| <= (end - begin) / Pace(r) + 1
  {
    if begin <= end && starts != [] {
      var n := |starts| - 1;
      StartsAreSpaced(env, r, starts, n);
      LastWithin(n, Pace(r), begin, starts[n], end);
    } else if begin <= end {
      LastWithin(0, Pace(r), begin, begin, end);
    }
  }

  /** Exactly that many when every send succeeds at once and sleeps are exact. */
  lemma SendsExact(env: nat -> Iteration, begin: nat, end: int, pace: nat, starts: seq<nat>)
    requires pace > 0 && begin <= end
    requires forall i: nat :: env(i).took + env(i).slept == pace
    requires Consecutive(env, starts) && starts != [] && starts[0] == begin
    requires starts[|starts| - 1] <= end < starts[|starts| - 1] + pace
    ensures |starts| == (end - begin) / pace + 1
  {
    var n := |starts|;
    StartsAreRegular(env, pace, starts, n - 1);
    assert n * pace == (n - 1) * pace + pace;
    QuotientBound(n - 1, pace, end - begin);
    QuotientBound(n, pace, end - begin);
  }
}
