/** app/src/sat_board.c as built without pass prediction. */
module EphemerisBoard {
  import opened Machine
  import opened PassSchedule
  import opened TransmitWindow

  class SatBoard {
    const passes: array<Pass>
    var idx: nat
    var count: nat
    var transmitting: bool
    var retransmission: byte
    var timer: Option<uint32>  // the timeout sat_timer was last started with, in seconds

    ghost predicate Valid()
      reads this
    {
      passes.Length == CAPACITY && idx <= count <= CAPACITY
    }

    ghost function Table(): seq<Pass>
      requires Valid()
      reads this, passes
    {
      passes[..count]
    }

    constructor (frequency: byte)
      ensures Valid() && fresh(passes) && Table() == [] && idx == 0
      ensures !transmitting && retransmission == frequency && timer == None
    {
      passes := new Pass[CAPACITY](i => Pass(0, 0));
      idx, count := 0, 0;
      transmitting, retransmission, timer := false, frequency, None;
    }

    method PassAdd(timestamp: uint32, duration: uint16) returns (err: int)
      requires Valid()
      modifies this`count, passes
      ensures Valid()
      ensures Table() == AppendAll(old(Table()), [Pass(timestamp, duration)])
      ensures err == if old(count) < CAPACITY then 0 else -ENOSPC
    {
      if count >= CAPACITY {
        return -ENOSPC;
      }
      passes[count] := Pass(timestamp, duration);
      count := count + 1;
      return 0;
    }

    method PassAddAll(more: seq<Pass>)
      requires Valid()
      modifies this`count, passes
      ensures Valid() && Table() == AppendAll(old(Table()), more)
    {
      for i := 0 to |more|
        invariant Valid() && Table() == AppendAll(old(Table()), more[..i])
      {
        var _ := PassAdd(more[i].timestamp, more[i].duration);
        AppendAllConcat(old(Table()), more[..i], [Pass(more[i].timestamp, more[i].duration)]);
        assert more[..i] + [more[i]] == more[..i + 1];
      }
      assert more[..|more|] == more;
    }

    /** One turn of the search: skip the pass at the cursor while Bluetooth may append others. */
    method Skip(arrivals: seq<seq<Pass>>, turn: nat, ghost table: seq<Pass>, ghost from: nat, ghost sec: nat,
                ghost was: seq<Pass>)
      returns (next: nat, ghost grown: seq<Pass>)
      requires Valid() && turn <= |arrivals| && |table| <= CAPACITY
      requires Table() == was == AppendAll(table, Flatten(arrivals[..turn]))
      requires from <= idx < count && idx < FirstFuture(was, from, sec)
      modifies this`idx, this`count, passes
      ensures Valid() && next <= |arrivals| && idx == old(idx) + 1
      ensures Table() == grown == AppendAll(table, Flatten(arrivals[..next]))
      ensures idx <= |grown| && idx <= FirstFuture(grown, from, sec)
    {
      next := turn;
      if turn < |arrivals| {
        PassAddAll(arrivals[turn]);
        FlattenSnoc(table, arrivals, turn);
        AppendsKeepChoice(was, Table(), from, sec);
        next := turn + 1;
      }
      idx := idx + 1;
      grown := Table();
    }

    /** The search of sat_schedule_next_transmission; arrivals[k] land in its k-th turn. */
    method Search(sec: nat, arrivals: seq<seq<Pass>>) returns (found: bool, ghost seen: nat)
      requires Valid()
      modifies this`idx, this`count, passes
      ensures Valid()
      ensures seen <= |arrivals| && Table() == AppendAll(old(Table()), Flatten(arrivals[..seen]))
      ensures old(idx) <= count && idx == FirstFuture(Table(), old(idx), sec)
      ensures found <==> idx < count
    {
      var turn: nat := 0;
      ghost var from, table, grown := idx, Table(), Table();
      found := idx < count;
      while found && passes[idx].timestamp < sec + 1
        invariant Valid() && turn <= |arrivals| && (found <==> idx < count)
        invariant Table() == grown == AppendAll(table, Flatten(arrivals[..turn]))
        invariant from <= idx <= FirstFuture(grown, from, sec)
        decreases CAPACITY - idx
      {
        turn, grown := Skip(arrivals, turn, table, from, sec, grown);
        found := idx < count;
      }
      assert found ==> sec < grown[idx].timestamp;
      seen := turn;
    }

    /**
     * sat_schedule_next_transmission at clock `now`. Bluetooth may append passes while
     * the search runs. The outcome is as if it had run in one piece on the table it
     * leaves behind.
     */
    method ScheduleNext(now: nat, arrivals: seq<seq<Pass>>) returns (err: int, ghost seen: nat)
      requires Valid()
      modifies this`idx, this`count, this`timer, passes
      ensures Valid()
      ensures seen <= |arrivals| && Table() == AppendAll(old(Table()), Flatten(arrivals[..seen]))
      ensures idx == FirstFuture(Table(), old(idx), now / MSEC_PER_SEC)
      ensures err == if idx < |Table()| then 0 else -1
      ensures timer == if idx < |Table()|
                       then Some(Table()[idx].timestamp - now / MSEC_PER_SEC) else old(timer)
    {
      var found;
      found, seen := Search(now / MSEC_PER_SEC, arrivals);
      if !found {
        return -1, seen;
      }
      EphemerisArming(now, passes[idx].timestamp);
      timer := Some((passes[idx].timestamp - now / MSEC_PER_SEC) % TWO32);
      return 0, seen;
    }

    method TransmissionTimeGet() returns (seconds: int)
      requires Valid()
      ensures seconds == if idx < |Table()| then Table()[idx].duration else -1
    {
      if idx >= count {
        return -1;
      }
      return passes[idx].duration;
    }

    /** sat_next_transmission_get: the passes from the cursor on, as many as fit. */
    method NextTransmissionGet(timestamps: array<uint32>, len: uint16) returns (n: nat)
      requires Valid() && len <= timestamps.Length
      modifies timestamps
      ensures n == Min(len, |Table()| - idx)
      ensures forall i :: 0 <= i < n ==> timestamps[i] == Table()[idx + i].timestamp
      ensures timestamps[n..] == old(timestamps[n..])
    {
      n := Min(len, count - idx);
      for i := 0 to n
        invariant forall k :: 0 <= k < i ==> timestamps[k] == passes[idx + k].timestamp
        invariant timestamps[i..] == old(timestamps[i..])
      {
        timestamps[i] := passes[idx + i].timestamp;
        assert timestamps[i + 1..] == old(timestamps[i..])[1..];
      }
    }

    /**
     * sat_transmit. `packet` is what hubble_sat_packet_get returned, `first` and `second`
     * the two clock reads that open the window, `env` what each turn of the loop met.
     * `starts` are the times at which a send was attempted, `done` when the last was over.
     */
    method Transmit(packet: int, first: nat, second: nat, env: nat -> Iteration)
      returns (ret: int, starts: seq<nat>, done: nat)
      requires Valid() && first <= second
      requires Paced(env, retransmission)
      modifies this`transmitting
      ensures packet != 0 ==> ret == packet && starts == [] && transmitting == old(transmitting)
      ensures first <= done && forall k :: 0 <= k < |starts| ==> first <= starts[k] <= done
      ensures starts != [] ==> starts[0] == first
      ensures forall k: nat {:trigger env(k)} :: k + 1 < |starts| ==>
        starts[k + 1] == starts[k] + env(k).took + env(k).slept
      ensures done == (
        if starts == [] then first
        else var last := |starts| - 1;
             starts[last] + env(last).took + if ret == 0 then env(last).slept else 0)
      ensures packet == 0 ==>
        var end := second + MSEC_PER_SEC * if idx < |Table()| then Table()[idx].duration else -1;
        && (forall k :: 0 <= k < |starts| ==> starts[k] <= end)
        && (first <= end ==> 1 <= |starts| <= (end - first) / Pace(retransmission) + 1)
        && (ret == 0 ==> AllSent(env, |starts|) && end < done)
        && (ret != 0 ==> starts != [] && AllSent(env, |starts| - 1) && env(|starts| - 1).ret == ret)
        && transmitting == (ret != 0)
    {
      if packet != 0 {
        return packet, [], first;
      }
      transmitting := true;
      var duration := TransmissionTimeGet();
      var end := second + duration * MSEC_PER_SEC;
      ret, starts, done := Window(env, first, end);
      SendsBound(env, first, end, retransmission, starts);
      if ret == 0 {
        transmitting := false;
      }
    }

    /** The loop of HUBBLE_FOR_WHILE; it ends early with the result of a failed send. */
    method Window(env: nat -> Iteration, begin: nat, end: int)
      returns (ret: int, starts: seq<nat>, done: nat)
      requires Paced(env, retransmission)
      ensures starts != [] ==> starts[0] == begin
      ensures forall k: nat {:trigger env(k)} :: k + 1 < |starts| ==>
        starts[k + 1] == starts[k] + env(k).took + env(k).slept
      ensures forall k :: 0 <= k < |starts| ==> starts[k] <= end
      ensures begin <= end ==> starts != []
      ensures ret == 0 ==> AllSent(env, |starts|) && end < done
      ensures ret != 0 ==> starts != [] && AllSent(env, |starts| - 1) && env(|starts| - 1).ret == ret
      ensures done == (
        if starts == [] then begin
        else var last := |starts| - 1;
             starts[last] + env(last).took + if ret == 0 then env(last).slept else 0)
      ensures begin <= done && forall k :: 0 <= k < |starts| ==> begin <= starts[k] <= done
    {
      var now := begin;
      starts := [];
      while now <= end
        invariant starts == [] ==> now == begin
        invariant starts != [] ==> starts[0] == begin
        invariant Consecutive(env, starts) && AllSent(env, |starts|)
        invariant starts != [] ==>
          var last := |starts| - 1;
          now == starts[last] + env(last).took + env(last).slept
        invariant forall k :: 0 <= k < |starts| ==> begin <= starts[k] <= now && starts[k] <= end
        invariant begin <= now
        decreases end - now
      {
        var turn := env(|starts|);
        OneMoreStart(env, starts, now);
        starts := starts + [now];
        if turn.ret != 0 {
          return turn.ret, starts, now + turn.took;
        }
        now := now + turn.took + turn.slept;
      }
      return 0, starts, now;
    }
  }
}
