/** The bytes a provisioning session puts on the air, and what they mean to the firmware. */
module ProvisioningWire {
  import opened Machine
  import opened LittleEndian
  import opened PassSchedule

  const PKT_CMD: byte := 0x02
  const CMD_SETUTC: byte := 0x02
  const CMD_SETEPHEMERIS: byte := 0x07
  const CMD_SETLOCATION: byte := 0x09

  const HEADER_SIZE: nat := 6
  const ENTRY_SIZE: nat := 6
  const BATCH_SIZE: nat := 20

  // ------------------------------------------------------------------ the encoder

  function EncodeEntry(p: Pass): (b: seq<byte>)
    ensures |b| == ENTRY_SIZE
  {
    ToBytes(p.timestamp, 4) + ToBytes(p.duration, 2)
  }

  function EncodeEntries(ps: seq<Pass>): (b: seq<byte>)
    ensures |b| == ENTRY_SIZE * |ps|
  {
    if ps == [] then [] else EncodeEntries(ps[..|ps| - 1]) + EncodeEntry(ps[|ps| - 1])
  }

  /** One write: the command, the number of entries, the entries. */
  function EncodeBatch(ps: seq<Pass>): (b: seq<byte>)
    ensures |b| == HEADER_SIZE + ENTRY_SIZE * |ps|
  {
    [PKT_CMD, CMD_SETEPHEMERIS] + ToBytes(|ps|, 4) + EncodeEntries(ps)
  }

  /** All writes for a list of passes. */
  function Batches(ps: seq<Pass>): seq<seq<byte>> {
    if ps == [] then []
    else [EncodeBatch(ps[..Min(|ps|, BATCH_SIZE)])] + Batches(ps[Min(|ps|, BATCH_SIZE)..])
  }

  /** Whole batches first: one more batch adds one more write. */
  lemma {:induction false} BatchesSnoc(whole: seq<Pass>, last: seq<Pass>)
    requires |whole| % BATCH_SIZE == 0 && 0 < |last| <= BATCH_SIZE
    ensures Batches(whole + last) == Batches(whole) + [EncodeBatch(last)]
    decreases |whole|
  {
    if whole == [] {
      assert whole + last == last && last[..|last|] == last && last[|last|..] == [];
    } else {
      assert (whole + last)[..BATCH_SIZE] == whole[..BATCH_SIZE];
      assert (whole + last)[BATCH_SIZE..] == whole[BATCH_SIZE..] + last;
      BatchesSnoc(whole[BATCH_SIZE..], last);
    }
  }

  // ------------------------------------------------------------------- the parser

  function DecodeEntry(req: seq<byte>, at: nat): Pass
    requires at + ENTRY_SIZE <= |req|
  {
    Widths();
    Pass(FromBytes(req[at..at + 4]), FromBytes(req[at + 4..at + 6]))
  }

  /** Byte by byte: four of the start second, two of the duration. */
  lemma EntryLayout(req: seq<byte>, at: nat)
    requires at + ENTRY_SIZE <= |req|
    ensures DecodeEntry(req, at).timestamp ==
      req[at] as int + 0x100 * req[at + 1] as int
      + 0x1_0000 * req[at + 2] as int + 0x100_0000 * req[at + 3] as int
    ensures DecodeEntry(req, at).duration == req[at + 4] as int + 0x100 * req[at + 5] as int
  {
    Digits(req[at..at + 4]);
    Digits(req[at + 4..at + 6]);
  }

  /** How many entries a write delivers: announced, present and fitting. */
  function Delivered(req: seq<byte>, room: nat): (n: nat)
    requires |req| > HEADER_SIZE
    ensures HEADER_SIZE + ENTRY_SIZE * n <= |req|
  {
    Min(Min(FromBytes(req[2..6]), (|req| - HEADER_SIZE) / ENTRY_SIZE), room)
  }

  function Parsed(req: seq<byte>, room: nat): (ps: seq<Pass>)
    requires |req| > HEADER_SIZE
  {
    seq(Delivered(req, room), i requires 0 <= i < Delivered(req, room) =>
      DecodeEntry(req, HEADER_SIZE + ENTRY_SIZE * i))
  }

  predicate IsEphemerisWrite(req: seq<byte>) {
    |req| > HEADER_SIZE && req[0] == PKT_CMD && req[1] == CMD_SETEPHEMERIS
  }

  /** The pass table after one write. */
  function Receive(table: seq<Pass>, req: seq<byte>): (t: seq<Pass>)
    requires |table| <= CAPACITY
    ensures |t| <= CAPACITY && table <= t
  {
    if IsEphemerisWrite(req) then table + Parsed(req, CAPACITY - |table|) else table
  }

  function ReceiveAll(table: seq<Pass>, writes: seq<seq<byte>>): (t: seq<Pass>)
    requires |table| <= CAPACITY
    ensures |t| <= CAPACITY
    decreases |writes|
  {
    if writes == [] then table else ReceiveAll(Receive(table, writes[0]), writes[1..])
  }

  lemma {:induction false} ReceiveAllConcat(table: seq<Pass>, first: seq<seq<byte>>, second: seq<seq<byte>>)
    requires |table| <= CAPACITY
    ensures ReceiveAll(table, first + second) == ReceiveAll(ReceiveAll(table, first), second)
    decreases |first|
  {
    if first == [] {
      assert first + second == second;
    } else {
      assert (first + second)[1..] == first[1..] + second;
      ReceiveAllConcat(Receive(table, first[0]), first[1..], second);
    }
  }

  // --------------------------------------------------------------- the round trip

  lemma {:induction false} EntryAt(ps: seq<Pass>, i: nat)
    requires i < |ps|
    ensures EncodeEntries(ps)[ENTRY_SIZE * i..ENTRY_SIZE * i + ENTRY_SIZE] == EncodeEntry(ps[i])
    decreases |ps|
  {
    var front := ps[..|ps| - 1];
    if i < |front| {
      EntryAt(front, i);
      assert EncodeEntries(ps)[..ENTRY_SIZE * |front|] == EncodeEntries(front);
      assert EncodeEntries(ps)[ENTRY_SIZE * i..ENTRY_SIZE * i + ENTRY_SIZE]
          == EncodeEntries(front)[ENTRY_SIZE * i..ENTRY_SIZE * i + ENTRY_SIZE];
    }
  }

  /** Six bytes that encode a pass decode to it, wherever they stand. */
  lemma EntryDecodes(req: seq<byte>, at: nat, p: Pass)
    requires at + ENTRY_SIZE <= |req| && req[at..at + ENTRY_SIZE] == EncodeEntry(p)
    ensures DecodeEntry(req, at) == p
  {
    var entry := req[at..at + ENTRY_SIZE];
    assert req[at..at + 4] == entry[..4] == ToBytes(p.timestamp, 4);
    assert req[at + 4..at + 6] == entry[4..] == ToBytes(p.duration, 2);
    Widths();
    DecodeEncode(p.timestamp, 4);
    DecodeEncode(p.duration, 2);
  }

  /** The announced number of entries, least significant byte first. */
  lemma CountField(req: seq<byte>)
    requires |req| >= HEADER_SIZE
    ensures FromBytes(req[2..6]) ==
      req[2] as int + 0x100 * req[3] as int + 0x1_0000 * req[4] as int + 0x100_0000 * req[5] as int
  {
    Digits(req[2..6]);
  }

  lemma SliceOfDrop<T>(s: seq<T>, n: nat, i: nat, j: nat)
    requires i <= j && n + j <= |s|
    ensures s[n..][i..j] == s[n + i..n + j]
  {
  }

  lemma SliceOfConcat<T>(a: seq<T>, b: seq<T>, i: nat, j: nat)
    requires i <= j <= |a|
    ensures (a + b)[i..j] == a[i..j]
  {
  }

  lemma BodySlice(body: seq<byte>, ps: seq<Pass>, rest: seq<byte>, i: nat)
    requires body == EncodeEntries(ps) + rest && i < |ps|
    ensures |body| == ENTRY_SIZE * |ps| + |rest|
    ensures body[ENTRY_SIZE * i..ENTRY_SIZE * i + ENTRY_SIZE] == EncodeEntry(ps[i])
  {
    EntryAt(ps, i);
    SliceOfConcat(EncodeEntries(ps), rest, ENTRY_SIZE * i, ENTRY_SIZE * i + ENTRY_SIZE);
  }

  lemma BodyEntry(req: seq<byte>, ps: seq<Pass>, rest: seq<byte>, i: nat)
    requires |req| >= HEADER_SIZE && req[HEADER_SIZE..] == EncodeEntries(ps) + rest && i < |ps|
    ensures HEADER_SIZE + ENTRY_SIZE * i + ENTRY_SIZE <= |req|
    ensures DecodeEntry(req, HEADER_SIZE + ENTRY_SIZE * i) == ps[i]
  {
    BodySlice(req[HEADER_SIZE..], ps, rest, i);
    SliceOfDrop(req, HEADER_SIZE, ENTRY_SIZE * i, ENTRY_SIZE * i + ENTRY_SIZE);
    EntryDecodes(req, HEADER_SIZE + ENTRY_SIZE * i, ps[i]);
  }

  lemma DeliveredOf(req: seq<byte>, ps: seq<Pass>, rest: seq<byte>, room: nat)
    requires |req| > HEADER_SIZE && |rest| < ENTRY_SIZE
    requires req[HEADER_SIZE..] == EncodeEntries(ps) + rest
    ensures Delivered(req, room) == Min(Min(FromBytes(req[2..6]), |ps|), room)
  {
    assert |req[HEADER_SIZE..]| == ENTRY_SIZE * |ps| + |rest|;
  }

  lemma ParsedIs(req: seq<byte>, ps: seq<Pass>, room: nat, n: nat)
    requires |req| > HEADER_SIZE && Delivered(req, room) == n <= |ps|
    requires forall i :: 0 <= i < n ==> DecodeEntry(req, HEADER_SIZE + ENTRY_SIZE * i) == ps[i]
    ensures Parsed(req, room) == ps[..n]
  {
    var parsed := Parsed(req, room);
    assert |parsed| == n;
    assert forall i :: 0 <= i < n ==> parsed[i] == ps[i];
  }

  /** The first `n` entries of a body, when so many are delivered. */
  lemma ParsedOf(req: seq<byte>, ps: seq<Pass>, rest: seq<byte>, room: nat, n: nat)
    requires |req| > HEADER_SIZE && req[HEADER_SIZE..] == EncodeEntries(ps) + rest
    requires Delivered(req, room) == n <= |ps|
    ensures Parsed(req, room) == ps[..n]
  {
    forall i | 0 <= i < n
      ensures DecodeEntry(req, HEADER_SIZE + ENTRY_SIZE * i) == ps[i]
    {
      BodyEntry(req, ps, rest, i);
    }
    ParsedIs(req, ps, room, n);
  }

  lemma ReceiveOf(table: seq<Pass>, req: seq<byte>, ps: seq<Pass>, count: nat)
    requires |table| <= CAPACITY && IsEphemerisWrite(req)
    requires Parsed(req, CAPACITY - |table|) == ps[..Min(Min(count, |ps|), CAPACITY - |table|)]
    ensures Receive(table, req) == AppendAll(table, ps[..Min(count, |ps|)])
  {
  }

  lemma CountDelivers(table: seq<Pass>, req: seq<byte>, ps: seq<Pass>, rest: seq<byte>, count: nat)
    requires |table| <= CAPACITY && IsEphemerisWrite(req) && FromBytes(req[2..6]) == count
    requires req[HEADER_SIZE..] == EncodeEntries(ps) + rest && |rest| < ENTRY_SIZE
    ensures Receive(table, req) == AppendAll(table, ps[..Min(count, |ps|)])
  {
    var room := CAPACITY - |table|;
    DeliveredOf(req, ps, rest, room);
    ParsedOf(req, ps, rest, room, Delivered(req, room));
    ReceiveOf(table, req, ps, count);
  }

  /**
   * What any write delivers. Its body is the encodings of `ps` and less than one more entry;
   * as many of them as the header announces are appended, in order, as far as there is room.
   */
  lemma WriteDelivers(table: seq<Pass>, req: seq<byte>, ps: seq<Pass>, rest: seq<byte>)
    requires |table| <= CAPACITY && |req| > 6 && req[0] == 0x02 && req[1] == 0x07
    requires req[6..] == EncodeEntries(ps) + rest && |rest| < 6
    ensures var count := req[2] as int + 0x100 * req[3] as int
                         + 0x1_0000 * req[4] as int + 0x100_0000 * req[5] as int;
            Receive(table, req) == AppendAll(table, ps[..Min(count, |ps|)])
  {
    CountField(req);
    CountDelivers(table, req, ps, rest, FromBytes(req[2..6]));
  }

  /** A batch cut off after any number of bytes still delivers its whole entries, in order. */
  lemma CutBatchDelivers(table: seq<Pass>, ps: seq<Pass>, len: nat)
    requires |table| <= CAPACITY && |ps| < TWO32
    requires HEADER_SIZE < len <= |EncodeBatch(ps)|
    ensures (len - HEADER_SIZE) / ENTRY_SIZE <= |ps|
    ensures Receive(table, EncodeBatch(ps)[..len])
         == AppendAll(table, ps[..(len - HEADER_SIZE) / ENTRY_SIZE])
  {
    var n := (len - HEADER_SIZE) / ENTRY_SIZE;
    var cut := EncodeBatch(ps)[..len];
    EntriesPrefix(ps, n);
    var body := EncodeEntries(ps)[..len - HEADER_SIZE];
    assert cut[6..] == body;
    assert body == body[..6 * n] + body[6 * n..];
    assert body[..6 * n] == EncodeEntries(ps)[..6 * n];
    Widths();
    DecodeEncode(|ps|, 4);
    assert cut[2..6] == ToBytes(|ps|, 4);
    CountField(cut);
    WriteDelivers(table, cut, ps[..n], body[6 * n..]);
    assert ps[..n][..Min(|ps|, n)] == ps[..n];
  }

  lemma {:induction false} EntriesPrefix(ps: seq<Pass>, n: nat)
    requires n <= |ps|
    ensures EncodeEntries(ps[..n]) == EncodeEntries(ps)[..ENTRY_SIZE * n]
    decreases |ps|
  {
    if n == |ps| {
      assert ps[..n] == ps;
    } else {
      var front := ps[..|ps| - 1];
      EntriesPrefix(front, n);
      assert front[..n] == ps[..n];
    }
  }

  lemma BatchDelivers(table: seq<Pass>, ps: seq<Pass>)
    requires |table| <= CAPACITY && 0 < |ps| < TWO32
    ensures Receive(table, EncodeBatch(ps)) == AppendAll(table, ps)
  {
    var req := EncodeBatch(ps);
    CutBatchDelivers(table, ps, |req|);
    assert req[..|req|] == req && ps[..|ps|] == ps;
  }

  lemma ReceiveFirst(table: seq<Pass>, first: seq<byte>, rest: seq<seq<byte>>)
    requires |table| <= CAPACITY
    ensures ReceiveAll(table, [first] + rest) == ReceiveAll(Receive(table, first), rest)
  {
  }

  /**
   * Encoding a list in batches and parsing every write appends the list to the table,
   * in order, as far as the table has room.
   */
  lemma {:induction false} RoundTrip(table: seq<Pass>, ps: seq<Pass>)
    requires |table| <= CAPACITY
    ensures ReceiveAll(table, Batches(ps)) == AppendAll(table, ps)
    decreases |ps|
  {
    if ps != [] {
      var n := Min(|ps|, BATCH_SIZE);
      var batch, rest := ps[..n], ps[n..];
      BatchDelivers(table, batch);
      RoundTrip(AppendAll(table, batch), rest);
      AppendAllConcat(table, batch, rest);
      assert batch + rest == ps;
      ReceiveFirst(table, EncodeBatch(batch), Batches(rest));
    }
  }

  /** Twenty entries to a write, and one write for what is left. */
  lemma {:induction false} BatchCount(ps: seq<Pass>)
    ensures |Batches(ps)| == (|ps| + 19) / 20
    decreases |ps|
  {
    if ps != [] {
      BatchCount(ps[Min(|ps|, BATCH_SIZE)..]);
    }
  }

  /** Every write of a batch fits a characteristic value of 512 bytes. */
  lemma {:induction false} BatchesAreShort(ps: seq<Pass>)
    ensures forall w :: w in Batches(ps) ==>
      IsEphemerisWrite(w) && |w| <= HEADER_SIZE + ENTRY_SIZE * BATCH_SIZE
    decreases |ps|
  {
    if ps != [] {
      BatchesAreShort(ps[Min(|ps|, BATCH_SIZE)..]);
    }
  }

  lemma RoundTripFromEmpty(ps: seq<Pass>)
    ensures ReceiveAll([], Batches(ps)) == ps[..Min(|ps|, 300)]
  {
    RoundTrip([], ps);
    assert [] + ps[..Min(|ps|, 300)] == ps[..Min(|ps|, 300)];
  }
}

/** scripts/companion.py. Python integers are unbounded and may be negative. */
module Companion {
  import opened Machine
  import opened LittleEndian
  import opened PassSchedule
  import opened ProvisioningWire

  datatype Entry = Entry(epoch: int, value: int)

  datatype Status = Done | Stopped | Overflow

  /** to_bytes accepts both fields. */
  predicate Encodable(e: Entry) {
    0 <= e.epoch < TWO32 && 0 <= e.value < TWO16
  }

  /** ... that is, both are numbers that four and two bytes can hold. */
  lemma EncodableIff(e: Entry)
    ensures Encodable(e) <==>
      exists b: seq<byte> :: |b| == 6 && FromBytes(b[..4]) == e.epoch && FromBytes(b[4..]) == e.value
  {
    Widths();
    if Encodable(e) {
      var b := ToBytes(e.epoch, 4) + ToBytes(e.value, 2);
      DecodeEncode(e.epoch, 4);
      DecodeEncode(e.value, 2);
      assert b[..4] == ToBytes(e.epoch, 4) && b[4..] == ToBytes(e.value, 2);
    }
  }

  predicate AllEncodable(data: seq<Entry>) {
    forall i :: 0 <= i < |data| ==> Encodable(data[i])
  }

  function Passes(data: seq<Entry>): (ps: seq<Pass>)
    requires AllEncodable(data)
  {
    seq(|data|, i requires 0 <= i < |data| => Pass(data[i].epoch, data[i].value))
  }

  /** The first `pos` entries are written, in batches. */
  predicate Written(data: seq<Entry>, pos: nat, writes: seq<seq<byte>>) {
    && pos <= |data| && AllEncodable(data[..pos])
    && writes == Batches(Passes(data[..pos]))
  }

  /** No stop so far, and whole batches unless the end is reached. */
  ghost predicate Progress(data: seq<Entry>, stopped: nat -> bool, pos: nat, writes: seq<seq<byte>>) {
    && Written(data, pos, writes)
    && (pos < |data| ==> pos == BATCH_SIZE * |writes|)
    && (forall k: nat :: k < |writes| ==> !stopped(k))
  }

  /** The session ended early, after whole batches, for the reason given. */
  ghost predicate Interrupted(data: seq<Entry>, stopped: nat -> bool, writes: seq<seq<byte>>, status: Status) {
    var pos := BATCH_SIZE * |writes|;
    && pos < |data| && Written(data, pos, writes)
    && (forall k: nat :: k < |writes| ==> !stopped(k))
    && (status.Stopped? <==> stopped(|writes|))
    && (status.Overflow? ==> !AllEncodable(data[pos..Min(pos + BATCH_SIZE, |data|)]))
  }

  function UtcWrite(utc: uint64): seq<byte> {
    [PKT_CMD, CMD_SETUTC] + ToBytes(utc, 8)
  }

  function LocationWrite(latitude: seq<byte>, longitude: seq<byte>): seq<byte> {
    [PKT_CMD, CMD_SETLOCATION] + latitude + longitude
  }

  class Script {
    var ephemerisData: seq<Entry>

    constructor ()
      ensures ephemerisData == []
    {
      ephemerisData := [];
    }

    method GenerateUtcTimestamps(startTime: int, interval: int, duration: int, count: int)
      modifies this
      ensures ephemerisData == old(ephemerisData) + Regular(startTime, interval, duration, Max(count, 0))
    {
      var currentTime := startTime;
      for i := 0 to Max(count, 0)
        invariant currentTime == startTime + i * interval
        invariant ephemerisData == old(ephemerisData) + Regular(startTime, interval, duration, i)
      {
        ephemerisData := ephemerisData + [Entry(currentTime, duration)];
        currentTime := currentTime + interval;
      }
    }

    /**
     * The writes of one session. `stopped(k)` tells whether the stop event is set when the
     * loop begins its k-th turn. An entry out of range raises OverflowError while its batch
     * is being built; batches written before that stay written.
     */
    method Scan(stopped: nat -> bool, utc: uint64, latitude: seq<byte>, longitude: seq<byte>)
      returns (writes: seq<seq<byte>>, status: Status)
      ensures status.Done? ==>
        && AllEncodable(ephemerisData)
        && writes == Batches(Passes(ephemerisData)) + [UtcWrite(utc), LocationWrite(latitude, longitude)]
      ensures !status.Done? ==> Interrupted(ephemerisData, stopped, writes, status)
    {
      writes, status := WriteBatches(ephemerisData, stopped);
      if status.Done? {
        assert ephemerisData[..|ephemerisData|] == ephemerisData;
        writes := writes + [UtcWrite(utc), LocationWrite(latitude, longitude)];
      }
    }

    method WriteBatches(ephemeris: seq<Entry>, stopped: nat -> bool)
      returns (writes: seq<seq<byte>>, status: Status)
      ensures status.Done? ==> Progress(ephemeris, stopped, |ephemeris|, writes)
      ensures !status.Done? ==> Interrupted(ephemeris, stopped, writes, status)
    {
      var total, pos := |ephemeris|, 0;
      writes, status := [], Done;
      while total > 0
        invariant 0 <= total && pos + total == |ephemeris|
        invariant Progress(ephemeris, stopped, pos, writes)
        decreases total
      {
        if stopped(|writes|) {
          return writes, Stopped;
        }
        var batchSize := Min(total, BATCH_SIZE);
        var longer, ok := WriteBatch(ephemeris, stopped, pos, batchSize, writes);
        if !ok {
          return writes, Overflow;
        }
        pos, total := pos + batchSize, total - batchSize;
        writes := longer;
      }
    }

    method WriteBatch(ephemeris: seq<Entry>, ghost stopped: nat -> bool, pos: nat, n: nat,
                      writes: seq<seq<byte>>)
      returns (longer: seq<seq<byte>>, ok: bool)
      requires Progress(ephemeris, stopped, pos, writes) && !stopped(|writes|)
      requires pos < |ephemeris| && n == Min(|ephemeris| - pos, BATCH_SIZE)
      ensures ok ==> Progress(ephemeris, stopped, pos + n, longer)
      ensures !ok ==> Interrupted(ephemeris, stopped, writes, Overflow)
    {
      var data;
      data, ok := BuildBatch(ephemeris[pos..pos + n]);
      longer := writes + [data];
      if ok {
        ExtendWrites(ephemeris, pos, n);
      }
    }

    method BuildBatch(batch: seq<Entry>) returns (data: seq<byte>, ok: bool)
      ensures ok <==> AllEncodable(batch)
      ensures ok ==> data == EncodeBatch(Passes(batch))
    {
      data := [PKT_CMD, CMD_SETEPHEMERIS] + ToBytes(|batch|, 4);
      ghost var head := data;
      for i := 0 to |batch|
        invariant AllEncodable(batch[..i])
        invariant data == head + EncodeEntries(Passes(batch[..i]))
      {
        if !Encodable(batch[i]) {
          return data, false;
        }
        data := data + ToBytes(batch[i].epoch, 4);
        data := data + ToBytes(batch[i].value, 2);
        ghost var ps := Passes(batch[..i + 1]);
        assert ps[..i] == Passes(batch[..i]);
        assert data == head + (EncodeEntries(Passes(batch[..i])) + EncodeEntry(ps[i]));
      }
      assert batch[..|batch|] == batch;
      ok := true;
    }
  }

  /** One more batch extends the writes by its encoding. */
  lemma ExtendWrites(data: seq<Entry>, pos: nat, n: nat)
    requires pos % BATCH_SIZE == 0 && 0 < n <= BATCH_SIZE && pos + n <= |data|
    requires AllEncodable(data[..pos]) && AllEncodable(data[pos..pos + n])
    ensures AllEncodable(data[..pos + n])
    ensures Batches(Passes(data[..pos + n]))
         == Batches(Passes(data[..pos])) + [EncodeBatch(Passes(data[pos..pos + n]))]
  {
    assert data[..pos + n] == data[..pos] + data[pos..pos + n];
    assert Passes(data[..pos + n]) == Passes(data[..pos]) + Passes(data[pos..pos + n]);
    BatchesSnoc(Passes(data[..pos]), Passes(data[pos..pos + n]));
  }

  /** `count` entries at a fixed interval. */
  function Regular(start: int, interval: int, duration: int, count: nat): (data: seq<Entry>)
    ensures |data| == count
    ensures forall i :: 0 <= i < count ==> data[i] == Entry(start + i * interval, duration)
  {
    if count == 0 then []
    else Regular(start, interval, duration, count - 1) + [Entry(start + (count - 1) * interval, duration)]
  }

  /** What the script generates arrives as a sorted table, for which the schedule is earliest-first. */
  lemma GeneratedIsSorted(start: int, interval: nat, duration: int, count: nat)
    requires AllEncodable(Regular(start, interval, duration, count))
    ensures Sorted(ReceiveAll([], Batches(Passes(Regular(start, interval, duration, count)))))
  {
    var ps := Passes(Regular(start, interval, duration, count));
    RoundTripFromEmpty(ps);
    forall i, j | 0 <= i < j < |ps|
      ensures ps[i].timestamp <= ps[j].timestamp
    {
      MulMonotone(i, j, interval);
    }
  }

  lemma MulMonotone(i: nat, j: nat, k: nat)
    requires i <= j
    ensures i * k <= j * k
  {
  }
}
