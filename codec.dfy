/**
 * The packet codec of the Query protocol: `pack('N')`/`unpack('N')`
 * big-endian 32-bit words, the request layout that `sendPacket`/`sendRaw`
 * put on the wire, and the split of a received datagram that `readPacket`
 * performs.
 */
module Codec {
  import opened Bytes
  import opened Strings

  const MAGIC_PREFIX: seq<Byte> := [0xFE, 0xFD]
  const PACKET_TYPE_CHALLENGE: Byte := 9
  const PACKET_TYPE_QUERY: Byte := 0

  /** 2^32: `pack('N')` keeps the low 32 bits of its argument. */
  const WORD := 0x1_0000_0000

  /** `pack('N', x)`: the low 32 bits of `x`, most significant byte first. */
  function PackN(x: int): (r: seq<Byte>)
    ensures |r| == 4
  {
    var u := x % WORD;
    [u / 0x100_0000, u / 0x1_0000 % 0x100, u / 0x100 % 0x100, u % 0x100]
  }

  /** `unpack('N', b)` on four bytes: an unsigned big-endian word. */
  function UnpackN(b: seq<Byte>): (r: nat)
    requires |b| == 4
    ensures r < WORD
  {
    (b[0] as int) * 0x100_0000 + (b[1] as int) * 0x1_0000 + (b[2] as int) * 0x100 + b[3]
  }

  /** Unpacking a packed word gives back the integer modulo 2^32. */
  lemma UnpackPackN(x: int)
    ensures UnpackN(PackN(x)) == x % WORD
  {
    var u := x % WORD;
    var b := PackN(x);
    assert u == (u / 0x100) * 0x100 + b[3];
    assert u / 0x100 == (u / 0x1_0000) * 0x100 + b[2];
    assert u / 0x1_0000 == (u / 0x100_0000) * 0x100 + b[1];
  }

  /** Packing an unpacked word gives back the four bytes. */
  lemma PackUnpackN(b: seq<Byte>)
    requires |b| == 4
    ensures PackN(UnpackN(b)) == b
  {
    var u := UnpackN(b);
    assert u % WORD == u;
    assert u / 0x100 == (b[0] as int) * 0x1_0000 + (b[1] as int) * 0x100 + b[2];
    assert u / 0x1_0000 == (b[0] as int) * 0x100 + b[1];
    assert u / 0x100_0000 == b[0];
  }

  /** `sendRaw`: the datagram is the magic prefix followed by the data. */
  function RawDatagram(data: seq<Byte>): (r: seq<Byte>)
  {
    MAGIC_PREFIX + data
  }

  /** `sendPacket`: the type byte, the packed session id and the packed
      challenge token, then the payload, all behind the magic prefix. */
  function Request(kind: Byte, idPacked: seq<Byte>, challengePacked: seq<Byte>, data: seq<Byte>): (r: seq<Byte>)
  {
    RawDatagram([kind] + idPacked + challengePacked + data)
  }

  /** The fields a server reads back from a request. */
  datatype RequestFields = RequestFields(kind: Byte, id: nat, challenge: nat, payload: seq<Byte>)

  /** How a server reads a request: the reference against which the
      layout of `Request` is checked. */
  function ParseRequest(p: seq<Byte>): (r: Option<RequestFields>)
  {
    if |p| < 11 || p[..2] != MAGIC_PREFIX then None
    else Some(RequestFields(p[2], UnpackN(p[3..7]), UnpackN(p[7..11]), p[11..]))
  }

  /** Every request is 11 bytes of header plus its payload, and a server
      reads back the type, the session id and the challenge token modulo
      2^32 and the payload. */
  lemma RequestLayout(kind: Byte, id: int, challenge: int, data: seq<Byte>)
    ensures |Request(kind, PackN(id), PackN(challenge), data)| == 11 + |data|
    ensures ParseRequest(Request(kind, PackN(id), PackN(challenge), data))
         == Some(RequestFields(kind, id % WORD, challenge % WORD, data))
  {
    var p := Request(kind, PackN(id), PackN(challenge), data);
    assert p[3..7] == PackN(id);
    assert p[7..11] == PackN(challenge);
    assert p[11..] == data;
    UnpackPackN(id);
    UnpackPackN(challenge);
  }

  /** Before any handshake the challenge field is `pack('N', 0)`: four zero bytes. */
  lemma ZeroChallenge()
    ensures PackN(0) == [0, 0, 0, 0]
  {
  }

  /** The three values `readPacket` returns; `unpack` on too few bytes
      yields no value. */
  datatype Packet = Packet(kind: Option<Byte>, id: Option<nat>, payload: seq<Byte>)

  /** `readPacket` after the datagram arrived: type = byte 0, id = the
      big-endian word in bytes 1..4, payload = everything from byte 5. */
  function ReadSplit(buff: seq<Byte>): (r: Packet)
  {
    Packet(
      if |buff| >= 1 then Some(buff[0]) else None,
      if |buff| >= 5 then Some(UnpackN(buff[1..5])) else None,
      From(buff, 5))
  }

  /** A reply as a server lays it out: type byte, session id, payload. */
  function ReplyDatagram(kind: Byte, id: int, payload: seq<Byte>): (r: seq<Byte>)
  {
    [kind] + PackN(id) + payload
  }

  /** `readPacket` recovers what the server put in a reply. */
  lemma ReadSplitReply(kind: Byte, id: int, payload: seq<Byte>)
    ensures ReadSplit(ReplyDatagram(kind, id, payload)) == Packet(Some(kind), Some(id % WORD), payload)
  {
    var d := ReplyDatagram(kind, id, payload);
    assert d[1..5] == PackN(id);
    assert d[5..] == payload;
    UnpackPackN(id);
  }

  /** A datagram of at least five bytes is exactly the reply of its parts. */
  lemma ReplyOfReadSplit(buff: seq<Byte>)
    requires |buff| >= 5
    ensures ReplyDatagram(ReadSplit(buff).kind.value, ReadSplit(buff).id.value, ReadSplit(buff).payload) == buff
  {
    PackUnpackN(buff[1..5]);
    assert buff == [buff[0]] + buff[1..5] + buff[5..];
  }
}
