/**
 * The receiving side of the Bluetooth HCI transport on the network core. Packet layouts
 * are those of the Bluetooth Core Specification, Vol 4, Part E, sections 5.4.1, 5.4.2 and
 * 5.4.5; the packet indicators those of Vol 4, Part A, section 2.
 */
module HciFraming {
  import opened Machine
  import opened LittleEndian

  datatype Kind = Command | Acl | Iso

  function Indicator(k: Kind): byte {
    match k case Command => 1 case Acl => 2 case Iso => 5
  }

  function KindOf(indicator: byte): Option<Kind> {
    if indicator == 1 then Some(Command) else if indicator == 2 then Some(Acl)
    else if indicator == 5 then Some(Iso) else None
  }

  function HeaderSize(k: Kind): nat {
    match k case Command => 3 case Acl => 4 case Iso => 4
  }

  /** Two little-endian bytes. */
  function Word(b: seq<byte>, at: nat): uint16
    requires at + 2 <= |b|
  {
    Widths();
    FromBytes(b[at..at + 2])
  }

  /** The length the header announces: one byte, 16 bits, or 14 bits. */
  function Announced(k: Kind, data: seq<byte>): nat
    requires |data| >= HeaderSize(k)
  {
    match k
    case Command => data[2]
    case Acl => Word(data, 2)
    case Iso => Word(data, 2) % 0x4000
  }

  /** The header alone decides the announced length. */
  lemma SameAnnounced(k: Kind, data: seq<byte>)
    requires |data| >= HeaderSize(k)
    ensures Announced(k, data[..HeaderSize(k)]) == Announced(k, data)
  {
    if k != Command {
      assert data[..4][2..4] == data[2..4];
    }
  }

  datatype Buffer = Buffer(kind: Kind, bytes: seq<byte>)

  /**
   * A frame without its indicator is accepted; `pool` is what bt_buf_get_tx finds: no
   * buffer, or one with so much room left behind the header.
   */
  predicate Accepted(k: Kind, data: seq<byte>, pool: Option<nat>) {
    && HeaderSize(k) <= |data| && pool.Some?
    && Announced(k, data) == |data| - HeaderSize(k) <= pool.value
  }

  class Receiver {
    var txQueue: seq<Buffer>
    ghost var obtained: nat  // buffers got from bt_buf_get_tx
    ghost var released: nat  // given back by net_buf_unref
    ghost var handed: nat    // accepted by the Bluetooth stack

    /** Each buffer is queued, or was released or handed over, exactly once. */
    ghost predicate Balanced()
      reads this
    {
      obtained == |txQueue| + released + handed
    }

    constructor ()
      ensures Balanced() && txQueue == []
    {
      txQueue, obtained, released, handed := [], 0, 0, 0;
    }

    /** hci_ipc_cmd_recv, hci_ipc_acl_recv and hci_ipc_iso_recv. */
    method PacketRecv(k: Kind, frame: seq<byte>, at: nat, len: nat, pool: Option<nat>)
      returns (buf: Option<Buffer>)
      requires at + len == |frame|
      modifies this`obtained, this`released
      ensures buf == if Accepted(k, frame[at..], pool) then Some(Buffer(k, frame[at..])) else None
      ensures obtained == old(obtained) + if HeaderSize(k) <= len && pool.Some? then 1 else 0
      ensures released == old(released)
        + if HeaderSize(k) <= len && pool.Some? && buf.None? then 1 else 0
    {
      var data, remaining := at, len;
      ghost var input := frame[at..];
      if remaining < HeaderSize(k) {
        return None;
      }
      if pool.None? {
        return None;
      }
      obtained := obtained + 1;
      var bytes := frame[data..data + HeaderSize(k)];
      assert bytes == input[..HeaderSize(k)];
      SameAnnounced(k, input);
      data, remaining := data + HeaderSize(k), remaining - HeaderSize(k);
      if remaining != Announced(k, bytes) {
        released := released + 1;
        return None;
      }
      if remaining > pool.value {
        released := released + 1;
        return None;
      }
      assert bytes + frame[data..] == input;
      return Some(Buffer(k, bytes + frame[data..]));
    }

    /** hci_ipc_rx. */
    method HciIpcRx(frame: seq<byte>, pool: Option<nat>)
      requires Balanced()
      modifies this
      ensures Balanced() && handed == old(handed)
      ensures txQueue == old(txQueue) + Queued(frame, pool)
    {
      if |frame| == 0 {
        return;
      }
      var kind := KindOf(frame[0]);
      if kind.None? {
        return;
      }
      var buf := PacketRecv(kind.value, frame, 1, |frame| - 1, pool);
      if buf.Some? {
        txQueue := txQueue + [buf.value];
      }
    }

    /** One turn of tx_thread; `accepted` tells whether bt_send took the buffer. */
    method TxTurn(accepted: bool)
      requires Balanced()
      modifies this
      ensures Balanced()
      ensures txQueue == if old(txQueue) == [] then [] else old(txQueue)[1..]
      ensures old(txQueue) != [] ==>
        handed == old(handed) + (if accepted then 1 else 0)
        && released == old(released) + (if accepted then 0 else 1)
    {
      if txQueue != [] {
        txQueue := txQueue[1..];
        if accepted {
          handed := handed + 1;
        } else {
          released := released + 1;
        }
      }
    }
  }

  /** What one message from the host adds to the queue. */
  function Queued(frame: seq<byte>, pool: Option<nat>): seq<Buffer> {
    if frame == [] || KindOf(frame[0]).None? then []
    else
      var k := KindOf(frame[0]).value;
      if Accepted(k, frame[1..], pool) then [Buffer(k, frame[1..])] else []
  }

  // ---------------------------------------------------------------------- packets

  datatype Packet =
    | CommandPacket(opcode: uint16, params: seq<byte>)
    | AclPacket(handle: uint16, payload: seq<byte>)
    | IsoPacket(handle: uint16, reserved: nat, payload: seq<byte>)  // two bits above the length

  function Payload(p: Packet): seq<byte> {
    match p
    case CommandPacket(_, params) => params
    case AclPacket(_, payload) => payload
    case IsoPacket(_, _, payload) => payload
  }

  function PacketKind(p: Packet): Kind {
    match p case CommandPacket(_, _) => Command case AclPacket(_, _) => Acl case IsoPacket(_, _, _) => Iso
  }

  predicate WellFormed(p: Packet) {
    match p
    case CommandPacket(_, params) => |params| < 0x100
    case AclPacket(_, payload) => |payload| < TWO16
    case IsoPacket(_, reserved, payload) => reserved < 4 && |payload| < 0x4000
  }

  function Header(p: Packet): (h: seq<byte>)
    requires WellFormed(p)
    ensures |h| == HeaderSize(PacketKind(p))
  {
    match p
    case CommandPacket(opcode, params) => ToBytes(opcode, 2) + [|params|]
    case AclPacket(handle, payload) => ToBytes(handle, 2) + ToBytes(|payload|, 2)
    case IsoPacket(handle, reserved, payload) =>
      ToBytes(handle, 2) + ToBytes(reserved * 0x4000 + |payload|, 2)
  }

  function Encode(p: Packet): seq<byte>
    requires WellFormed(p)
  {
    [Indicator(PacketKind(p))] + Header(p) + Payload(p)
  }

  /** Reading the fields of a frame that has a whole header. */
  function Decode(k: Kind, data: seq<byte>): Packet
    requires |data| >= HeaderSize(k)
  {
    match k
    case Command => CommandPacket(Word(data, 0), data[3..])
    case Acl => AclPacket(Word(data, 0), data[4..])
    case Iso => IsoPacket(Word(data, 0), Word(data, 2) / 0x4000, data[4..])
  }

  /** A field written in two bytes is read back, wherever it stands. */
  lemma WordDecodes(before: seq<byte>, n: uint16, after: seq<byte>)
    ensures Word(before + ToBytes(n, 2) + after, |before|) == n
  {
    var b, at := before + ToBytes(n, 2) + after, |before|;
    assert b[at..at + 2] == ToBytes(n, 2);
    Widths();
    DecodeEncode(n, 2);
  }

  lemma TwoWords(first: uint16, second: uint16, payload: seq<byte>)
    ensures var data := ToBytes(first, 2) + ToBytes(second, 2) + payload;
            Word(data, 0) == first && Word(data, 2) == second && data[4..] == payload
  {
    var data := ToBytes(first, 2) + ToBytes(second, 2) + payload;
    WordDecodes([], first, ToBytes(second, 2) + payload);
    assert [] + ToBytes(first, 2) + (ToBytes(second, 2) + payload) == data;
    WordDecodes(ToBytes(first, 2), second, payload);
  }

  predicate ReadsBack(p: Packet)
    requires WellFormed(p)
  {
    var data, k := Header(p) + Payload(p), PacketKind(p);
    Announced(k, data) == |Payload(p)| && Decode(k, data) == p
  }

  lemma CommandReadsBack(opcode: uint16, params: seq<byte>)
    requires |params| < 0x100
    ensures ReadsBack(CommandPacket(opcode, params))
  {
    var data := ToBytes(opcode, 2) + [|params|] + params;
    WordDecodes([], opcode, [|params|] + params);
    assert [] + ToBytes(opcode, 2) + ([|params|] + params) == data;
    assert data[3..] == params;
  }

  lemma AclReadsBack(handle: uint16, payload: seq<byte>)
    requires |payload| < TWO16
    ensures ReadsBack(AclPacket(handle, payload))
  {
    TwoWords(handle, |payload|, payload);
  }

  lemma IsoReadsBack(handle: uint16, reserved: nat, payload: seq<byte>)
    requires reserved < 4 && |payload| < 0x4000
    ensures ReadsBack(IsoPacket(handle, reserved, payload))
  {
    TwoWords(handle, reserved * 0x4000 + |payload|, payload);
  }

  lemma HeaderFields(p: Packet)
    requires WellFormed(p)
    ensures ReadsBack(p)
  {
    match p
    case CommandPacket(opcode, params) => CommandReadsBack(opcode, params);
    case AclPacket(handle, payload) => AclReadsBack(handle, payload);
    case IsoPacket(handle, reserved, payload) => IsoReadsBack(handle, reserved, payload);
  }

  lemma FrameParts(p: Packet)
    requires WellFormed(p)
    ensures var f := Encode(p);
            && f != [] && KindOf(f[0]) == Some(PacketKind(p))
            && f[1..] == Header(p) + Payload(p)
  {
  }

  /** A well-formed packet that finds a buffer and fits is queued byte for byte. */
  lemma EncodedIsQueued(p: Packet, room: nat)
    requires WellFormed(p) && |Payload(p)| <= room
    ensures Queued(Encode(p), Some(room)) == [Buffer(PacketKind(p), Encode(p)[1..])]
    ensures Decode(PacketKind(p), Encode(p)[1..]) == p
  {
    FrameParts(p);
    HeaderFields(p);
    assert Accepted(PacketKind(p), Header(p) + Payload(p), Some(room));
  }

  lemma WordEncodes(b: seq<byte>, at: nat)
    requires at + 2 <= |b|
    ensures ToBytes(Word(b, at), 2) == b[at..at + 2]
  {
    EncodeDecode(b[at..at + 2]);
  }

  lemma CommandReencodes(data: seq<byte>)
    requires |data| >= 3 && data[2] == |data| - 3
    ensures var p := Decode(Command, data); WellFormed(p) && Header(p) == data[..3]
  {
    WordEncodes(data, 0);
    assert data[..3] == data[0..2] + [data[2]];
  }

  lemma AclReencodes(data: seq<byte>)
    requires |data| >= 4 && Word(data, 2) == |data| - 4
    ensures var p := Decode(Acl, data); WellFormed(p) && Header(p) == data[..4]
  {
    WordEncodes(data, 0);
    WordEncodes(data, 2);
    assert data[..4] == data[0..2] + data[2..4];
  }

  lemma IsoReencodes(data: seq<byte>)
    requires |data| >= 4 && Word(data, 2) % 0x4000 == |data| - 4
    ensures var p := Decode(Iso, data); WellFormed(p) && Header(p) == data[..4]
  {
    WordEncodes(data, 0);
    WordEncodes(data, 2);
    var field := Word(data, 2);
    assert field / 0x4000 * 0x4000 + field % 0x4000 == field;
    assert data[..4] == data[0..2] + data[2..4];
  }

  /** Whatever is accepted is a well-formed packet, and encodes to the input again. */
  lemma AcceptedReencodes(k: Kind, data: seq<byte>, pool: Option<nat>)
    requires Accepted(k, data, pool)
    ensures var p := Decode(k, data);
            WellFormed(p) && PacketKind(p) == k && Encode(p) == [Indicator(k)] + data
  {
    match k
    case Command => CommandReencodes(data);
    case Acl => AclReencodes(data);
    case Iso => IsoReencodes(data);
  }

  /** The receiver queues exactly the encodings of well-formed packets that fit. */
  lemma QueuesExactlyPackets(frame: seq<byte>, room: nat)
    ensures Queued(frame, Some(room)) != [] <==>
            exists p :: WellFormed(p) && Encode(p) == frame && |Payload(p)| <= room
  {
    if Queued(frame, Some(room)) != [] {
      var k, data := KindOf(frame[0]).value, frame[1..];
      AcceptedReencodes(k, data, Some(room));
      assert Encode(Decode(k, data)) == frame;
    }
    if p :| WellFormed(p) && Encode(p) == frame && |Payload(p)| <= room {
      EncodedIsQueued(p, room);
    }
  }

  lemma TwoBytes(n: uint16)
    ensures ToBytes(n, 2) == [n % 0x100, n / 0x100]
  {
  }

  /** One packet of each kind, byte by byte: HCI_Reset, and two bytes of data each way. */
  lemma PacketLayouts()
    ensures Encode(CommandPacket(0x0C03, [])) == [1, 0x03, 0x0C, 0]
    ensures Encode(AclPacket(0x2001, [7, 8])) == [2, 0x01, 0x20, 2, 0, 7, 8]
    ensures Encode(IsoPacket(0x2060, 1, [7, 8])) == [5, 0x60, 0x20, 2, 0x40, 7, 8]
  {
    TwoBytes(0x0C03);
    TwoBytes(0x2001);
    TwoBytes(0x2060);
    TwoBytes(2);
    TwoBytes(0x4002);
  }
}
