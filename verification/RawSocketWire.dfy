/** The octets of the RawSocket wire, written out, and what a receiver makes of them. */
module RawSocketWire {
  import opened Octets
  import opened Powers
  import opened Wrappers
  import opened RawSocket

  // ---------------------------------------------------------------- frames

  /** The prefix of a frame: five reserved bits and the type, then the length in three octets. */
  function Prefix(first: Octet, length: nat): Octets
    requires length < 0x100_0000
  {
    [first, length / 0x1_0000, length / 0x100 % 0x100, length % 0x100]
  }

  lemma PrefixReads(first: Octet, length: nat, tail: Octets)
    requires length < 0x100_0000
    ensures var s := Prefix(first, length) + tail;
            |s| >= 4 && FrameType(s) == first % 8 && FrameLength(s) == length && s[4..] == tail
  {
    var s := Prefix(first, length) + tail;
    var b := [0] + s[1..4];
    assert b == [0, length / 0x1_0000, length / 0x100 % 0x100, length % 0x100];
    assert b == PackUint32(length);
    UnpackPack(length);
  }

  /**
   * What a receiver makes of a frame in front of more octets: the low three bits of the first
   * octet say which hook gets the payload, and an invalid type is reported before an excessive
   * length.
   */
  lemma {:induction false} FrameArrives(limit: nat, first: Octet, payload: Octets, rest: Octets)
    requires |payload| < 0x100_0000
    ensures var s := Prefix(first, |payload|) + (payload + rest);
            var p, q := ParseFrames(limit, s), ParseFrames(limit, rest);
            if first % 8 >= 3 then p == Parsed([InvalidFrameType], s, true)
            else if |payload| > limit then p == Parsed([FrameTooBig], s, true)
            else if first % 8 == 0 then p == q.(events := [StringReceived(payload)] + q.events)
            else if first % 8 == 1 then p == q.(events := [PingReceived(payload)] + q.events)
            else p == q.(events := [PongReceived(payload)] + q.events)
  {
    var n := |payload|;
    var s := Prefix(first, n) + (payload + rest);
    PrefixReads(first, n, payload + rest);
    assert s[4..4 + n] == payload && s[4 + n..] == rest;
  }

  /** What sendString writes for a payload that its prefix can carry. */
  lemma FrameIsWritten(payload: Octets)
    requires |payload| < 0x100_0000
    ensures Frame(payload) == Prefix(0, |payload|) + payload
  {
  }

  /** Until a frame is complete nothing happens, unless its prefix is complete and wrong. */
  lemma {:induction false} FrameIsAwaited(limit: nat, first: Octet, length: nat, part: Octets)
    requires length < 0x100_0000 && |part| < length
    ensures var s := Prefix(first, length) + part;
            ParseFrames(limit, s) == if first % 8 >= 3 then Parsed([InvalidFrameType], s, true)
                                     else if length > limit then Parsed([FrameTooBig], s, true)
                                     else Parsed([], s, false)
    ensures forall k :: 0 <= k < 4 ==> ParseFrames(limit, Prefix(first, length)[..k]) == Parsed([], Prefix(first, length)[..k], false)
  {
    PrefixReads(first, length, part);
  }

  // ---------------------------------------------------------------- the handshake

  /** The sixteen limits that a nibble can announce. */
  const LIMITS: seq<nat> := [
    512, 1024, 2048, 4096, 8192, 16384, 32768, 65536,
    131072, 262144, 524288, 1048576, 2097152, 4194304, 8388608, 16777216
  ]

  lemma LimitOfNibble(nibble: nat)
    requires nibble <= 15
    ensures Pow2(nibble + 9) == LIMITS[nibble]
    decreases nibble
  {
    if nibble == 0 {
      assert Pow2(9) == 512;
    } else {
      LimitOfNibble(nibble - 1);
      assert LIMITS[nibble] == 2 * LIMITS[nibble - 1];
    }
  }

  /** What a client sends first, and the limits it receives and starts to send by. */
  lemma ClientOpens(id: nat, exponent: nat)
    requires 1 <= id <= 15 && exponent <= 15
    ensures var cfg := Config(Client(id), exponent);
            && Hello(cfg) == [127, exponent * 16 + id, 0, 0] && MaxLength(cfg) == LIMITS[exponent]
            && Receive(cfg, []).sendLimit == 16777216
  {
    LimitOfNibble(exponent);
  }

  lemma ServerWaits(supported: set<nat>, exponent: nat)
    requires exponent <= 15
    ensures var cfg := Config(Server(supported), exponent);
            Hello(cfg) == [] && MaxLength(cfg) == LIMITS[exponent] && Receive(cfg, []).sendLimit == 16777216
  {
    LimitOfNibble(exponent);
  }

  /** A server's answer to any four octets, and the limit it sends by from then on. */
  lemma {:induction false} ServerAnswers(supported: set<nat>, exponent: nat, b: Octets)
    requires exponent <= 15 && |b| == 4
    ensures var r := Receive(Config(Server(supported), exponent), b);
            var id, limit := b[1] % 16, LIMITS[b[1] / 16];
            if b[0] != 127 then
              r == Outcome([HandshakeFailed(InvalidMagicByte)], b, false, true, [], 16777216, None)
            else if b[2] != 0 || b[3] != 0 then
              r == Outcome([HandshakeFailed(ReservedBytesNotZero)], b, false, true, [], limit, None)
            else if id !in supported then
              r == Outcome([HandshakeFailed(SerializerUnsupported(id))], b, false, true, [127, 16, 0, 0], limit, None)
            else
              r == Outcome([HandshakeComplete], [], true, false, [127, exponent * 16 + id, 0, 0], limit, Some(id))
  {
    LimitOfNibble(b[1] / 16);
    assert b[..4] == b;
  }

  /** A client's verdict on any four octets of the server. */
  lemma {:induction false} ClientConcludes(id: nat, exponent: nat, b: Octets)
    requires 1 <= id <= 15 && exponent <= 15 && |b| == 4
    ensures var r := Receive(Config(Client(id), exponent), b);
            var limit := LIMITS[b[1] / 16];
            if b[0] != 127 then
              r == Outcome([HandshakeFailed(InvalidMagicByte)], b, false, true, [], 16777216, None)
            else if b[2] != 0 || b[3] != 0 then
              r == Outcome([HandshakeFailed(ReservedBytesNotZero)], b, false, true, [], limit, None)
            else if b[1] % 16 == 0 then
              r == Outcome([HandshakeFailed(ServerReturnedError(b[1] / 16))], b, false, true, [], limit, None)
            else if b[1] % 16 != id then
              r == Outcome([HandshakeFailed(DifferentSerializer(b[1] % 16))], b, false, true, [], limit, None)
            else
              r == Outcome([HandshakeComplete], [], true, false, [], limit, Some(id))
  {
    LimitOfNibble(b[1] / 16);
    assert b[..4] == b;
  }
}
