/** The provisioning characteristic of app/src/ble.c. */
module BleDevice {
  import opened Machine
  import opened LittleEndian
  import opened PassSchedule
  import opened ProvisioningWire
  import opened EphemerisBoard
  import Companion

  // Error 0x0D of the Attribute Protocol, as a negative result of the callback.
  const INVALID_ATTRIBUTE_LEN: int := -0x0D

  /**
   * UTC at boot: what SETUTC leaves in utc_time. It is 0, which the rest of the firmware
   * takes for "not synchronised", exactly when the time written equals the uptime.
   */
  function BootUtc(utc: uint64, uptime: uint64): (r: uint64)
    ensures (r + uptime) % TWO64 == utc
    ensures r == 0 <==> utc == uptime
  {
    (utc - uptime) % TWO64
  }

  lemma PrefixSlice(req: seq<byte>, len: nat, from: nat, to: nat)
    requires from <= to <= len <= |req|
    ensures req[..len][from..to] == req[from..to]
  {
  }

  class Device {
    const prediction: bool  // CONFIG_APP_USE_PASS_PREDICTION
    const board: SatBoard
    var utcTime: uint64
    var hubbleTime: Option<uint64>  // last argument of hubble_time_set
    var location: seq<byte>

    ghost predicate Valid()
      reads this, board
    {
      board.Valid()
    }

    constructor (prediction: bool, frequency: byte)
      ensures Valid() && fresh(board) && fresh(board.passes)
      ensures this.prediction == prediction && board.Table() == []
      ensures utcTime == 0 && hubbleTime == None && location == []
    {
      this.prediction := prediction;
      var b := new SatBoard(frequency);
      board := b;
      utcTime, hubbleTime, location := 0, None, [];
    }

    predicate Command(req: seq<byte>, len: nat, prepare: bool, cmd: byte)
      requires 2 <= |req| && len <= |req|
    {
      !prepare && req[0] == PKT_CMD && req[1] == cmd
    }

    /**
     * _chr_write_cb for a write of `len` bytes at the start of `req`. The first two bytes
     * are read whatever `len` is; nothing else outside the write is.
     */
    method ChrWrite(req: seq<byte>, len: uint16, prepare: bool, uptime: uint64) returns (ret: int)
      requires Valid() && 2 <= |req| && len <= |req|
      modifies this, board`count, board.passes
      ensures Valid()
      ensures board.Table() ==
        if Command(req, len, prepare, CMD_SETEPHEMERIS) && !prediction
        then Receive(old(board.Table()), req[..len]) else old(board.Table())
      ensures Command(req, len, prepare, CMD_SETUTC) && len == 10 ==>
        utcTime == BootUtc(Field(req, 2), uptime) && hubbleTime == Some(Field(req, 2))
      ensures !(Command(req, len, prepare, CMD_SETUTC) && len == 10) ==>
        utcTime == old(utcTime) && hubbleTime == old(hubbleTime)
      ensures location ==
        if Command(req, len, prepare, CMD_SETLOCATION) && prediction && len == 18
        then req[2..18] else old(location)
      // a fragment, or anything but a command, changes nothing
      ensures prepare || req[0] != 0x02 ==>
        && board.Table() == old(board.Table()) && utcTime == old(utcTime)
        && hubbleTime == old(hubbleTime) && location == old(location)
        && ret == if prepare then 0 else len
      ensures ret ==
        if prepare then 0
        else if Command(req, len, prepare, CMD_SETUTC) && len != 10 then INVALID_ATTRIBUTE_LEN
        else if Command(req, len, prepare, CMD_SETLOCATION) && prediction && len != 18
        then INVALID_ATTRIBUTE_LEN
        else len
    {
      if prepare {
        return 0;
      }
      if req[0] == PKT_CMD {
        var cmd := req[1];
        if cmd == CMD_SETUTC {
          if len != 10 {
            return INVALID_ATTRIBUTE_LEN;
          }
          var utc := Field(req, 2);
          hubbleTime := Some(utc);
          utcTime := BootUtc(utc, uptime);
        } else if cmd == CMD_SETEPHEMERIS {
          if !prediction && len > HEADER_SIZE {
            ParseEphemeris(req, len);
          }
        } else if cmd == CMD_SETLOCATION {
          if prediction {
            if len != 18 {
              return INVALID_ATTRIBUTE_LEN;
            }
            location := req[2..18];
          }
        }
      }
      return len;
    }

    /** Eight little-endian bytes. */
    function Field(req: seq<byte>, at: nat): uint64
      requires at + 8 <= |req|
    {
      Widths();
      FromBytes(req[at..at + 8])
    }

    /** The entry loop: it stops at the count, at the end of the write, or at a full table. */
    method ParseEphemeris(req: seq<byte>, len: uint16)
      requires Valid() && HEADER_SIZE < len <= |req|
      requires req[0] == PKT_CMD && req[1] == CMD_SETEPHEMERIS
      modifies board`count, board.passes
      ensures Valid() && board.Table() == Receive(old(board.Table()), req[..len])
    {
      ghost var table, room := board.Table(), CAPACITY - |board.Table()|;
      ghost var write := req[..len];
      var count := FromBytes(req[2..6]);
      PrefixSlice(req, len, 2, 6);
      var p, available := HEADER_SIZE, len - HEADER_SIZE;
      var i := 0;
      while i < count
        invariant Valid() && i <= Delivered(write, room)
        invariant p == HEADER_SIZE + ENTRY_SIZE * i && available == len - p
        invariant board.Table() == table + Parsed(write, room)[..i]
        decreases count - i
      {
        if available < ENTRY_SIZE {
          break;
        }
        assert p + ENTRY_SIZE <= len;
        PrefixSlice(req, len, p, p + 4);
        PrefixSlice(req, len, p + 4, p + 6);
        var entry := DecodeEntry(req, p);
        assert entry == DecodeEntry(write, p);
        var resp := board.PassAdd(entry.timestamp, entry.duration);
        if resp != 0 {
          break;
        }
        assert i < Delivered(write, room) && Parsed(write, room)[i] == entry;
        assert Parsed(write, room)[..i + 1] == Parsed(write, room)[..i] + [entry];
        p, available := p + ENTRY_SIZE, available - ENTRY_SIZE;
        i := i + 1;
      }
      assert i == Delivered(write, room);
      assert Parsed(write, room)[..i] == Parsed(write, room);
    }

    /** A sequence of complete writes. */
    method ReceiveWrites(writes: seq<seq<byte>>, uptime: uint64)
      requires Valid()
      requires forall i :: 0 <= i < |writes| ==> 2 <= |writes[i]| < TWO16
      modifies this, board`count, board.passes
      ensures Valid()
      ensures board.Table() ==
        if prediction then old(board.Table()) else ReceiveAll(old(board.Table()), writes)
      ensures (forall i :: 0 <= i < |writes| ==> IsEphemerisWrite(writes[i])) ==>
        utcTime == old(utcTime) && hubbleTime == old(hubbleTime) && location == old(location)
    {
      for i := 0 to |writes|
        invariant Valid()
        invariant board.Table() ==
          if prediction then old(board.Table()) else ReceiveAll(old(board.Table()), writes[..i])
        invariant (forall k :: 0 <= k < i ==> IsEphemerisWrite(writes[k])) ==>
          utcTime == old(utcTime) && hubbleTime == old(hubbleTime) && location == old(location)
      {
        var w := writes[i];
        var _ := ChrWrite(w, |w|, false, uptime);
        assert w[..|w|] == w;
        assert writes[..i + 1] == writes[..i] + [w];
        ReceiveAllConcat(old(board.Table()), writes[..i], [w]);
        assert [w][1..] == [];
      }
      assert writes[..|writes|] == writes;
    }
  }

  /**
   * A provisioning session from end to end: the script's list, through its bytes, into the
   * table of a device, and the location into one built with pass prediction, which ignores
   * the list. An interrupted session leaves the whole batches it had written.
   */
  method Provision(script: Companion.Script, device: Device, stopped: nat -> bool, utc: uint64,
                   latitude: seq<byte>, longitude: seq<byte>, uptime: uint64)
    returns (status: Companion.Status, sent: nat)
    requires device.Valid() && |latitude| == |longitude| == 8
    modifies device, device.board`count, device.board.passes
    ensures device.Valid()
    ensures sent <= |script.ephemerisData| && Companion.AllEncodable(script.ephemerisData[..sent])
    ensures device.board.Table() ==
      if device.prediction then old(device.board.Table())
      else AppendAll(old(device.board.Table()), Companion.Passes(script.ephemerisData[..sent]))
    ensures status.Done? ==>
      && sent == |script.ephemerisData|
      && device.hubbleTime == Some(utc) && device.utcTime == BootUtc(utc, uptime)
    ensures !status.Done? ==>
      && sent % BATCH_SIZE == 0
      && device.hubbleTime == old(device.hubbleTime) && device.utcTime == old(device.utcTime)
    ensures device.location ==
      if status.Done? && device.prediction then latitude + longitude else old(device.location)
  {
    var batches, last;
    status, sent, batches, last := ScriptWrites(script, stopped, utc, latitude, longitude);
    ReceivePasses(device, Companion.Passes(script.ephemerisData[..sent]), batches, uptime);
    if status.Done? {
      Finish(device, last[0], last[1], utc, latitude, longitude, uptime);
    }
  }

  /** What the script writes: the batches of the entries it got through, and when done two more. */
  method ScriptWrites(script: Companion.Script, stopped: nat -> bool, utc: uint64,
                      latitude: seq<byte>, longitude: seq<byte>)
    returns (status: Companion.Status, sent: nat, batches: seq<seq<byte>>, last: seq<seq<byte>>)
    ensures sent <= |script.ephemerisData| && Companion.AllEncodable(script.ephemerisData[..sent])
    ensures batches == Batches(Companion.Passes(script.ephemerisData[..sent]))
    ensures status.Done? ==>
      && sent == |script.ephemerisData|
      && last == [Companion.UtcWrite(utc), Companion.LocationWrite(latitude, longitude)]
    ensures !status.Done? ==> sent % BATCH_SIZE == 0 && last == []
  {
    var writes;
    writes, status := script.Scan(stopped, utc, latitude, longitude);
    if status.Done? {
      sent, batches, last := |script.ephemerisData|, writes[..|writes| - 2], writes[|writes| - 2..];
      assert script.ephemerisData[..sent] == script.ephemerisData;
    } else {
      sent, batches, last := BATCH_SIZE * |writes|, writes, [];
    }
  }

  /** The last two writes of a session: the time, then the location. */
  method Finish(device: Device, time: seq<byte>, location: seq<byte>, utc: uint64,
                latitude: seq<byte>, longitude: seq<byte>, uptime: uint64)
    requires device.Valid() && |latitude| == |longitude| == 8
    requires time == Companion.UtcWrite(utc) && location == Companion.LocationWrite(latitude, longitude)
    modifies device, device.board`count, device.board.passes
    ensures device.Valid() && device.board.Table() == old(device.board.Table())
    ensures device.hubbleTime == Some(utc) && device.utcTime == BootUtc(utc, uptime)
    ensures device.location == if device.prediction then latitude + longitude else old(device.location)
  {
    ReceiveUtc(device, time, utc, uptime);
    ReceiveLocation(device, location, latitude, longitude, uptime);
  }

  method ReceivePasses(device: Device, ghost ps: seq<Pass>, batches: seq<seq<byte>>, uptime: uint64)
    requires device.Valid() && batches == Batches(ps)
    modifies device, device.board`count, device.board.passes
    ensures device.Valid()
    ensures device.board.Table() ==
      if device.prediction then old(device.board.Table()) else AppendAll(old(device.board.Table()), ps)
    ensures device.utcTime == old(device.utcTime) && device.hubbleTime == old(device.hubbleTime)
    ensures device.location == old(device.location)
  {
    BatchesAreShort(ps);
    RoundTrip(device.board.Table(), ps);
    device.ReceiveWrites(batches, uptime);
  }

  method ReceiveUtc(device: Device, w: seq<byte>, utc: uint64, uptime: uint64)
    requires device.Valid() && w == Companion.UtcWrite(utc)
    modifies device, device.board`count, device.board.passes
    ensures device.Valid() && device.board.Table() == old(device.board.Table())
    ensures device.hubbleTime == Some(utc) && device.utcTime == BootUtc(utc, uptime)
    ensures device.location == old(device.location)
  {
    UtcRoundTrip(utc);
    var _ := device.ChrWrite(w, 10, false, uptime);
  }

  method ReceiveLocation(device: Device, w: seq<byte>, latitude: seq<byte>, longitude: seq<byte>, uptime: uint64)
    requires device.Valid() && |latitude| == |longitude| == 8
    requires w == Companion.LocationWrite(latitude, longitude)
    modifies device, device.board`count, device.board.passes
    ensures device.Valid() && device.board.Table() == old(device.board.Table())
    ensures device.utcTime == old(device.utcTime) && device.hubbleTime == old(device.hubbleTime)
    ensures device.location == if device.prediction then latitude + longitude else old(device.location)
  {
    assert w[2..18] == latitude + longitude;
    var _ := device.ChrWrite(w, 18, false, uptime);
  }

  lemma UtcRoundTrip(utc: uint64)
    ensures var w := Companion.UtcWrite(utc);
            |w| == 10 && w[0] == 0x02 && w[1] == 0x02 && FromBytes(w[2..10]) == utc
  {
    var w := Companion.UtcWrite(utc);
    assert w[2..10] == ToBytes(utc, 8);
    Widths();
    DecodeEncode(utc, 8);
  }
}
