/**
 * The asyncio RawSocket transport: a four-octet opening handshake, then frames with a
 * four-octet prefix, received in chunks that need not respect any of these boundaries.
 */
module RawSocket {
  import opened Octets
  import opened Powers
  import opened Wrappers

  const FRAME_TYPE_DATA := 0
  const FRAME_TYPE_PING := 1
  const FRAME_TYPE_PONG := 2

  const MAGIC_BYTE: Octet := 0x7F
  const PREFIX_LENGTH := 4
  const ERR_SERIALIZER_UNSUPPORTED := 1

  datatype HandshakeError =
    | InvalidMagicByte
    | ReservedBytesNotZero
    | ServerReturnedError(code: nat)
    | DifferentSerializer(serializer: nat)
    | SerializerUnsupported(serializer: nat)

  /** What a connection shows to the code above it. The errors close the transport. */
  datatype Event =
    | HandshakeComplete
    | StringReceived(payload: Octets)
    | PingReceived(payload: Octets)
    | PongReceived(payload: Octets)
    | InvalidFrameType
    | FrameTooBig
    | HandshakeFailed(error: HandshakeError)

  // ---------------------------------------------------------------- frames

  function FrameEvent(frameType: nat, payload: Octets): Event
    requires frameType <= FRAME_TYPE_PONG
  {
    if frameType == FRAME_TYPE_DATA then StringReceived(payload)
    else if frameType == FRAME_TYPE_PING then PingReceived(payload)
    else PongReceived(payload)
  }

  function FrameType(s: Octets): nat
    requires |s| >= PREFIX_LENGTH
  {
    s[0] % 8
  }

  function FrameLength(s: Octets): (n: nat)
    requires |s| >= PREFIX_LENGTH
  {
    UnpackUint32([0] + s[1..4])
  }

  /** All frames of a stream, what is left of an incomplete one, and whether an error stopped it. */
  datatype Parsed = Parsed(events: seq<Event>, rest: Octets, failed: bool)

  function ParseFrames(maxLength: nat, s: Octets): (r: Parsed)
    decreases |s|
  {
    if |s| < PREFIX_LENGTH then Parsed([], s, false)
    else if FrameType(s) > FRAME_TYPE_PONG then Parsed([InvalidFrameType], s, true)
    else if FrameLength(s) > maxLength then Parsed([FrameTooBig], s, true)
    else
      var n := FrameLength(s);
      if |s| - PREFIX_LENGTH < n then Parsed([], s, false)
      else
        var r := ParseFrames(maxLength, s[PREFIX_LENGTH + n..]);
        r.(events := [FrameEvent(FrameType(s), s[PREFIX_LENGTH..PREFIX_LENGTH + n])] + r.events)
  }

  /** The header that is kept between calls: set as soon as the prefix of the next frame is there. */
  function CachedHeader(buffer: Octets): Option<(nat, nat)> {
    if |buffer| < PREFIX_LENGTH then None else Some((FrameType(buffer), FrameLength(buffer)))
  }

  /** Nothing more can be taken from the buffer. */
  predicate Incomplete(maxLength: nat, buffer: Octets) {
    |buffer| >= PREFIX_LENGTH ==>
      FrameType(buffer) <= FRAME_TYPE_PONG && FrameLength(buffer) <= maxLength && |buffer| - PREFIX_LENGTH < FrameLength(buffer)
  }

  lemma {:induction false} RestIsIncomplete(maxLength: nat, s: Octets)
    requires !ParseFrames(maxLength, s).failed
    ensures Incomplete(maxLength, ParseFrames(maxLength, s).rest)
    decreases |s|
  {
    if |s| >= PREFIX_LENGTH && |s| - PREFIX_LENGTH >= FrameLength(s) {
      RestIsIncomplete(maxLength, s[PREFIX_LENGTH + FrameLength(s)..]);
    }
  }

  lemma PrefixFields(a: Octets, b: Octets)
    requires |a| >= PREFIX_LENGTH
    ensures FrameType(a + b) == FrameType(a) && FrameLength(a + b) == FrameLength(a)
  {
    assert (a + b)[1..4] == a[1..4];
  }

  /** s starts with a whole frame that is accepted. */
  predicate StartsWithFrame(maxLength: nat, s: Octets) {
    && |s| >= PREFIX_LENGTH && FrameType(s) <= FRAME_TYPE_PONG && FrameLength(s) <= maxLength
    && |s| >= PREFIX_LENGTH + FrameLength(s)
  }

  lemma ParseOneFrame(maxLength: nat, a: Octets, b: Octets)
    requires StartsWithFrame(maxLength, a)
    ensures var m := PREFIX_LENGTH + FrameLength(a);
            var r := ParseFrames(maxLength, a[m..] + b);
            ParseFrames(maxLength, a + b) == r.(events := [FrameEvent(FrameType(a), a[PREFIX_LENGTH..m])] + r.events)
  {
    var m := PREFIX_LENGTH + FrameLength(a);
    PrefixFields(a, b);
    assert (a + b)[PREFIX_LENGTH..m] == a[PREFIX_LENGTH..m];
    assert (a + b)[m..] == a[m..] + b;
  }

  /** r is the parse p of a first part, followed by the parse q of its rest and a second part. */
  ghost predicate Continues(p: Parsed, q: Parsed, r: Parsed) {
    if p.failed then r.failed && r.events == p.events else r == Parsed(p.events + q.events, q.rest, q.failed)
  }

  lemma PrependEvent(e: Event, p: Parsed, q: Parsed, r: Parsed)
    requires Continues(p, q, r)
    ensures Continues(p.(events := [e] + p.events), q, r.(events := [e] + r.events))
  {
    assert [e] + (p.events + q.events) == [e] + p.events + q.events;
  }

  lemma ParseStuck(maxLength: nat, a: Octets, b: Octets)
    requires !StartsWithFrame(maxLength, a)
    ensures var p := ParseFrames(maxLength, a);
            && p.events == (if p.failed then ParseFrames(maxLength, a + b).events else [])
            && (p.failed ==> ParseFrames(maxLength, a + b).failed)
            && (!p.failed ==> p.rest == a)
  {
    if |a| >= PREFIX_LENGTH {
      PrefixFields(a, b);
    }
  }

  /** Parsing may stop anywhere and go on with what is left and what comes next. */
  lemma {:induction false} ParseConcat(maxLength: nat, a: Octets, b: Octets)
    ensures var p := ParseFrames(maxLength, a);
            Continues(p, ParseFrames(maxLength, p.rest + b), ParseFrames(maxLength, a + b))
    decreases |a|
  {
    if !StartsWithFrame(maxLength, a) {
      ParseStuck(maxLength, a, b);
    } else {
      var m := PREFIX_LENGTH + FrameLength(a);
      ParseConcat(maxLength, a[m..], b);
      ParseOneFrame(maxLength, a, b);
      var p := ParseFrames(maxLength, a[m..]);
      PrependEvent(FrameEvent(FrameType(a), a[PREFIX_LENGTH..m]), p,
                   ParseFrames(maxLength, p.rest + b), ParseFrames(maxLength, a[m..] + b));
    }
  }

  /**
   * The receive loop gets on: with t left of s, the events so far and those of t are those of
   * s; or, if the transport has been closed, they are all of the events of s.
   */
  ghost predicate Advances(maxLength: nat, s: Octets, t: Octets, before: seq<Event>, after: seq<Event>, closed: bool) {
    var p, q := ParseFrames(maxLength, s), ParseFrames(maxLength, t);
    if closed then p.failed && after == before + p.events
    else before + p.events == after + q.events && p.rest == q.rest && p.failed == q.failed
  }

  lemma KeepFrame(maxLength: nat, s: Octets, events: seq<Event>)
    ensures Advances(maxLength, s, s, events, events, false)
  {
  }

  /** One step of the receive loop: the frame at pos is delivered and the stream at the next one is left. */
  lemma TakeFrame(maxLength: nat, buffer: Octets, pos: nat, done: seq<Event>)
    requires pos <= |buffer| && StartsWithFrame(maxLength, buffer[pos..])
    ensures var s := buffer[pos..];
            var at, end := pos + PREFIX_LENGTH, pos + PREFIX_LENGTH + FrameLength(s);
            Advances(maxLength, s, buffer[end..], done, done + [FrameEvent(FrameType(s), buffer[at..end])], false)
  {
    var s := buffer[pos..];
    var m := PREFIX_LENGTH + FrameLength(s);
    var left := buffer[pos + m..];
    var e := [FrameEvent(FrameType(s), s[PREFIX_LENGTH..m])];
    ParseOneFrame(maxLength, s, []);
    assert s + [] == s && s[m..] + [] == left;
    assert s[PREFIX_LENGTH..m] == buffer[pos + PREFIX_LENGTH..pos + m];
    assert done + (e + ParseFrames(maxLength, left).events) == done + e + ParseFrames(maxLength, left).events;
  }

  /** The cached header, if there is one, is the header of what is buffered. */
  ghost predicate HeaderFits(maxLength: nat, header: Option<(nat, nat)>, buffer: Octets) {
    header.Some? ==>
      && |buffer| >= PREFIX_LENGTH && header == CachedHeader(buffer)
      && FrameType(buffer) <= FRAME_TYPE_PONG && FrameLength(buffer) <= maxLength
  }

  lemma HeaderStillFits(maxLength: nat, header: Option<(nat, nat)>, buffer: Octets, data: Octets)
    requires HeaderFits(maxLength, header, buffer)
    ensures HeaderFits(maxLength, header, buffer + data)
  {
    if header.Some? {
      PrefixFields(buffer, data);
    }
  }

  // ---------------------------------------------------------------- the opening handshake

  datatype Role =
    | Client(serializerId: nat)
    | Server(supported: set<nat>)

  /** A side of a connection; the wire carries the length limit as an exponent in one nibble. */
  datatype Config = Config(role: Role, lengthExp: nat)

  predicate ValidConfig(cfg: Config) {
    cfg.lengthExp <= 15 && (cfg.role.Client? ==> 1 <= cfg.role.serializerId <= 15)
  }

  function MaxLength(cfg: Config): nat {
    Pow2(cfg.lengthExp + 9)
  }

  function HandshakeOctets(lengthExp: nat, serializerId: nat): Octets
    requires lengthExp <= 15 && serializerId <= 15
  {
    [MAGIC_BYTE, lengthExp * 16 + serializerId, 0, 0]
  }

  /** What connection_made writes. */
  function Hello(cfg: Config): Octets
    requires ValidConfig(cfg)
  {
    if cfg.role.Client? then HandshakeOctets(cfg.lengthExp, cfg.role.serializerId) else []
  }

  /** The effect of processing the four octets of the peer. */
  datatype Shake = Shake(error: Option<HandshakeError>, reply: Octets, sendLimit: nat, serializer: nat)

  const INITIAL_SEND_LIMIT: nat := 16 * 1024 * 1024

  function Handshake(cfg: Config, b: Octets): Shake
    requires ValidConfig(cfg) && |b| == 4
  {
    var ser := b[1] % 16;
    var limit := Pow2(b[1] / 16 + 9);
    if b[0] != MAGIC_BYTE then Shake(Some(InvalidMagicByte), [], INITIAL_SEND_LIMIT, ser)
    else if b[2] != 0 || b[3] != 0 then Shake(Some(ReservedBytesNotZero), [], limit, ser)
    else match cfg.role
      case Client(id) =>
        if ser == 0 then Shake(Some(ServerReturnedError(b[1] / 16)), [], limit, ser)
        else if id != ser then Shake(Some(DifferentSerializer(ser)), [], limit, ser)
        else Shake(None, [], limit, ser)
      case Server(supported) =>
        if ser !in supported then
          Shake(Some(SerializerUnsupported(ser)), HandshakeOctets(ERR_SERIALIZER_UNSUPPORTED, 0), limit, ser)
        else Shake(None, HandshakeOctets(cfg.lengthExp, ser), limit, ser)
  }

  // ---------------------------------------------------------------- the whole receiver

  /** Everything a connection has done after receiving s, however s was cut into chunks. */
  datatype Outcome = Outcome(events: seq<Event>, rest: Octets, handshakeDone: bool, failed: bool,
                             reply: Octets, sendLimit: nat, serializer: Option<nat>)

  function Receive(cfg: Config, s: Octets): Outcome
    requires ValidConfig(cfg)
  {
    if |s| < 4 then Outcome([], s, false, false, [], INITIAL_SEND_LIMIT, None)
    else
      var h := Handshake(cfg, s[..4]);
      if h.error.Some? then
        Outcome([HandshakeFailed(h.error.value)], s, false, true, h.reply, h.sendLimit, None)
      else
        var p := ParseFrames(MaxLength(cfg), s[4..]);
        Outcome([HandshakeComplete] + p.events, p.rest, true, p.failed, h.reply, h.sendLimit, Some(h.serializer))
  }

  /** After the handshake, what else is received only adds frames. */
  lemma ReceiveMoreFrames(cfg: Config, s: Octets, data: Octets)
    requires ValidConfig(cfg) && Receive(cfg, s).handshakeDone && !Receive(cfg, s).failed
    ensures var o, r := Receive(cfg, s), Receive(cfg, s + data);
            var p := ParseFrames(MaxLength(cfg), o.rest + data);
            && r.events == o.events + p.events && r.rest == p.rest && r.failed == p.failed
            && r.handshakeDone && r.reply == o.reply && r.sendLimit == o.sendLimit && r.serializer == o.serializer
  {
    assert (s + data)[..4] == s[..4];
    assert (s + data)[4..] == s[4..] + data;
    ParseConcat(MaxLength(cfg), s[4..], data);
    var p := ParseFrames(MaxLength(cfg), s[4..]);
    PrependEvent(HandshakeComplete, p, ParseFrames(MaxLength(cfg), p.rest + data), ParseFrames(MaxLength(cfg), s[4..] + data));
  }

  lemma NibbleLimit(exponent: nat)
    requires exponent <= 15
    ensures Pow2(exponent + 9) <= TWO_TO_THE_24
  {
    Pow2Monotone(exponent + 9, 24);
    Pow2Values();
  }

  /** No peer can announce a limit that does not fit the prefix. */
  lemma SendLimitBound(cfg: Config, s: Octets)
    requires ValidConfig(cfg)
    ensures Receive(cfg, s).sendLimit <= TWO_TO_THE_24
  {
    if |s| >= 4 {
      NibbleLimit(s[1] / 16);
    }
  }

  /** The octets of one payload on the wire. */
  function Frame(payload: Octets): Octets
    requires |payload| < TWO_TO_THE_32
  {
    PackUint32(|payload|) + payload
  }

  /** An error is final: the octets after it change nothing but what is left over. */
  lemma {:induction false} ErrorIsFinal(cfg: Config, a: Octets, b: Octets)
    requires ValidConfig(cfg) && Receive(cfg, a).failed
    ensures Receive(cfg, a + b) == Receive(cfg, a).(rest := Receive(cfg, a + b).rest)
  {
    assert (a + b)[..4] == a[..4];
    assert (a + b)[4..] == a[4..] + b;
    ParseConcat(MaxLength(cfg), a[4..], b);
  }

  /** What has been written: frames sent before the reply to the peer's opening, and after it. */
  function Written(cfg: Config, early: Octets, reply: Octets, late: Octets): Octets
    requires ValidConfig(cfg)
  {
    Hello(cfg) + early + reply + late
  }

  lemma WriteEarly(cfg: Config, early: Octets, more: Octets)
    requires ValidConfig(cfg)
    ensures Written(cfg, early, [], []) + more == Written(cfg, early + more, [], [])
  {
  }

  lemma WriteReply(cfg: Config, early: Octets, reply: Octets)
    requires ValidConfig(cfg)
    ensures Written(cfg, early, [], []) + reply == Written(cfg, early, reply, [])
  {
  }

  lemma WriteLate(cfg: Config, early: Octets, reply: Octets, late: Octets, more: Octets)
    requires ValidConfig(cfg)
    ensures Written(cfg, early, reply, late) + more == Written(cfg, early, reply, late + more)
  {
  }

  lemma WriteFrame(cfg: Config, written: Octets, early: Octets, reply: Octets, late: Octets, payload: Octets)
    requires ValidConfig(cfg) && written == Written(cfg, early, reply, late) && |payload| < TWO_TO_THE_32
    ensures written + PackUint32(|payload|) + payload == Written(cfg, early, reply, late + Frame(payload))
    ensures reply == [] && late == [] ==>
      written + PackUint32(|payload|) + payload == Written(cfg, early + Frame(payload), reply, late)
  {
    assert written + PackUint32(|payload|) + payload == written + Frame(payload);
    WriteLate(cfg, early, reply, late, Frame(payload));
    if reply == [] && late == [] {
      WriteEarly(cfg, early, Frame(payload));
    }
  }

  /**
   * The asyncio protocol object. The transport is the octets handed to it and whether it has
   * been closed; asyncio delivers nothing after that.
   */
  class RawSocketProtocol {
    const cfg: Config
    const maxLength: nat
    var buffer: Octets
    var header: Option<(nat, nat)>
    var handshakeDone: bool
    var maxLengthSend: nat
    var serializer: Option<nat>
    var closed: bool
    var written: Octets
    var events: seq<Event>

    /** Everything received, and the frames sent before and after the peer's opening was replied to. */
    ghost var received: Octets
    ghost var early: Octets
    ghost var late: Octets

    ghost predicate Valid()
      reads this
    {
      && ValidConfig(cfg) && maxLength == MaxLength(cfg) && maxLengthSend <= TWO_TO_THE_24
      && var o := Receive(cfg, received);
      && events == o.events && handshakeDone == o.handshakeDone && closed == o.failed
      && maxLengthSend == o.sendLimit && serializer == o.serializer
      && written == Written(cfg, early, o.reply, late)
      && (!handshakeDone && !closed ==> late == [])
      && (!closed ==> buffer == o.rest)
      && (!closed ==> header == if handshakeDone then CachedHeader(buffer) else None)
      && (!closed && handshakeDone ==> Incomplete(maxLength, buffer))
    }

    /** connection_made, for either side. */
    constructor (cfg: Config)
      requires ValidConfig(cfg)
      ensures Valid() && this.cfg == cfg && received == [] && early == [] && late == []
    {
      this.cfg := cfg;
      maxLength := MaxLength(cfg);
      buffer := [];
      header := None;
      handshakeDone := false;
      maxLengthSend := INITIAL_SEND_LIMIT;
      serializer := None;
      closed := false;
      written := Hello(cfg);
      events := [];
      received := [];
      early, late := [], [];
    }

    method ProtocolError(e: Event)
      modifies this`events, this`closed
      ensures events == old(events) + [e] && closed
    {
      events := events + [e];
      closed := true;
    }

    /** The hooks of a received frame. */
    method FrameReceived(frameType: nat, payload: Octets)
      requires frameType <= FRAME_TYPE_PONG
      modifies this`events
      ensures events == old(events) + [FrameEvent(frameType, payload)]
    {
      if frameType == FRAME_TYPE_DATA {
        events := events + [StringReceived(payload)];
      } else if frameType == FRAME_TYPE_PING {
        events := events + [PingReceived(payload)];
      } else if frameType == FRAME_TYPE_PONG {
        events := events + [PongReceived(payload)];
      }
    }

    /** The header at pos, unless it was kept from the previous call. */
    method ReadHeader(pos: nat) returns (ok: bool, frameType: nat, frameLength: nat)
      requires pos + PREFIX_LENGTH <= |buffer| && !closed
      requires HeaderFits(maxLength, header, buffer[pos..])
      modifies this`events, this`closed
      ensures ok ==> !closed && events == old(events)
      ensures ok ==> frameType == FrameType(buffer[pos..]) <= FRAME_TYPE_PONG
      ensures ok ==> frameLength == FrameLength(buffer[pos..]) <= maxLength
      ensures !ok ==> closed && Advances(maxLength, buffer[pos..], buffer[pos..], old(events), events, true)
    {
      ok, frameType, frameLength := false, 0, 0;
      if header.Some? {
        frameType, frameLength := header.value.0, header.value.1;
      } else {
        var prefix := buffer[pos..pos + PREFIX_LENGTH];
        assert prefix[1..] == buffer[pos..][1..4];
        frameType := prefix[0] % 8;
        if frameType > FRAME_TYPE_PONG {
          ProtocolError(InvalidFrameType);
          return;
        }
        frameLength := UnpackUint32([0] + prefix[1..]);
        if frameLength > maxLength {
          ProtocolError(FrameTooBig);
          return;
        }
      }
      ok := true;
    }

    /** The body of the receive loop: one frame, or a header to keep, or an error. */
    method ReceiveFrame(pos: nat) returns (more: bool, next: nat)
      requires pos + PREFIX_LENGTH <= |buffer| && !closed
      requires HeaderFits(maxLength, header, buffer[pos..])
      modifies this`header, this`events, this`closed
      ensures more ==> pos < next <= |buffer| && !closed && header == None
      ensures !more && !closed ==> next == pos && header == CachedHeader(buffer[pos..]) && Incomplete(maxLength, buffer[pos..])
      ensures closed || next <= |buffer|
      ensures Advances(maxLength, buffer[pos..], buffer[if closed then pos else next..], old(events), events, closed)
    {
      more, next := false, pos;
      var ok, frameType, frameLength := ReadHeader(pos);
      if !ok {
        return;
      }
      if |buffer| - pos - PREFIX_LENGTH >= frameLength {
        TakeFrame(maxLength, buffer, pos, events);
        header := None;
        more, next := true, pos + PREFIX_LENGTH + frameLength;
        FrameReceived(frameType, buffer[pos + PREFIX_LENGTH..next]);
      } else {
        KeepFrame(maxLength, buffer[pos..], events);
        header := Some((frameType, frameLength));
      }
    }

    /** PrefixProtocol.data_received. */
    method FramesReceived(data: Octets)
      requires !closed && HeaderFits(maxLength, header, buffer)
      modifies this`buffer, this`header, this`events, this`closed
      ensures var p := ParseFrames(maxLength, old(buffer) + data);
              && events == old(events) + p.events
              && closed == p.failed
              && (!closed ==> buffer == p.rest && header == CachedHeader(buffer) && Incomplete(maxLength, buffer))
    {
      HeaderStillFits(maxLength, header, buffer, data);
      buffer := buffer + data;
      ghost var whole := ParseFrames(maxLength, buffer);
      ghost var goal := events + whole.events;
      var pos, more := 0, true;
      assert buffer[0..] == buffer;
      while more && |buffer| - pos >= PREFIX_LENGTH
        invariant 0 <= pos <= |buffer| && buffer == old(buffer) + data && !closed
        invariant HeaderFits(maxLength, header, buffer[pos..])
        invariant !more ==> header == CachedHeader(buffer[pos..]) && Incomplete(maxLength, buffer[pos..])
        invariant more ==> header == None || pos == 0
        invariant var todo := ParseFrames(maxLength, buffer[pos..]);
                  goal == events + todo.events && whole.rest == todo.rest && whole.failed == todo.failed
        decreases more, |buffer| - pos
      {
        more, pos := ReceiveFrame(pos);
        if closed {
          return;
        }
      }
      buffer := buffer[pos..];
    }

    /** RawSocketProtocol.data_received. */
    method DataReceived(data: Octets)
      requires Valid() && !closed
      modifies this
      ensures Valid() && received == old(received) + data && early == old(early) && late == old(late)
    {
      if handshakeDone {
        ReceiveMoreFrames(cfg, received, data);
        received := received + data;
        FramesReceived(data);
      } else {
        HandshakeReceived(data);
      }
    }

    /** Collects the opening handshake; frames may follow it in the same chunk. */
    method HandshakeReceived(data: Octets)
      requires Valid() && !closed && !handshakeDone
      modifies this
      ensures Valid() && received == old(received) + data && early == old(early) && late == old(late)
    {
      assert buffer == received && header == None;
      received := received + data;
      buffer := buffer + data;
      if |buffer| >= 4 {
        SplitReceived();
      }
    }

    /** The first four octets are the opening, the others are frames. */
    method SplitReceived()
      requires ValidConfig(cfg) && maxLength == MaxLength(cfg) && buffer == received && |buffer| >= 4 && header == None
      requires !closed && !handshakeDone && events == [] && serializer == None && late == []
      requires maxLengthSend == INITIAL_SEND_LIMIT && written == Written(cfg, early, [], [])
      modifies this
      ensures Valid() && received == old(received) && early == old(early) && late == old(late)
    {
      ghost var first := buffer[..4];
      var left := buffer[4..];
      assert received == first + left;
      SendLimitBound(cfg, received);
      WriteReply(cfg, early, Receive(cfg, first).reply);
      ProcessOpening(first);
      if closed {
        ErrorIsFinal(cfg, first, left);
        return;
      }
      buffer := [];
      assert [] + left == left;
      ReceiveMoreFrames(cfg, first, left);
      if left != [] {
        FramesReceived(left);
      }
    }

    /** Processes the first four octets, as if nothing else had been received. */
    method ProcessOpening(ghost first: Octets)
      requires ValidConfig(cfg) && maxLength == MaxLength(cfg)
      requires |buffer| >= 4 && first == buffer[..4]
      requires !closed && !handshakeDone && events == [] && serializer == None
      requires maxLengthSend == INITIAL_SEND_LIMIT
      modifies this`maxLengthSend, this`written, this`serializer, this`closed, this`events, this`handshakeDone
      ensures var o := Receive(cfg, first);
              && events == o.events && handshakeDone == o.handshakeDone && closed == o.failed
              && maxLengthSend == o.sendLimit && serializer == o.serializer && written == old(written) + o.reply
              && (!closed ==> handshakeDone && o.rest == [])
    {
      var h := ProcessHandshake(buffer[..4]);
      if h.Some? {
        ProtocolError(HandshakeFailed(h.value));
        return;
      }
      handshakeDone := true;
      events := events + [HandshakeComplete];
    }

    /** parse_handshake and process_handshake of either side, on the first four octets. */
    method ProcessHandshake(b: Octets) returns (error: Option<HandshakeError>)
      requires ValidConfig(cfg) && |b| == 4
      modifies this`maxLengthSend, this`written, this`serializer
      ensures var h := Handshake(cfg, b);
              && error == h.error
              && maxLengthSend == (if error == Some(InvalidMagicByte) then old(maxLengthSend) else h.sendLimit)
              && written == old(written) + h.reply
              && serializer == if error.Some? then old(serializer) else Some(h.serializer)
    {
      if b[0] != MAGIC_BYTE {
        return Some(InvalidMagicByte);
      }
      var ser := b[1] % 16;
      var lexp := b[1] / 16;
      maxLengthSend := Pow2(lexp + 9);
      if b[2] != 0 || b[3] != 0 {
        return Some(ReservedBytesNotZero);
      }
      match cfg.role {
        case Client(id) =>
          if ser == 0 {
            return Some(ServerReturnedError(lexp));
          }
          if id != ser {
            return Some(DifferentSerializer(ser));
          }
        case Server(supported) =>
          if ser !in supported {
            SendResponse(ERR_SERIALIZER_UNSUPPORTED, 0);
            return Some(SerializerUnsupported(ser));
          }
          SendResponse(cfg.lengthExp, ser);
      }
      serializer := Some(ser);
      error := None;
    }

    method SendResponse(lengthExp: nat, serializerId: nat)
      requires lengthExp <= 15 && serializerId <= 15
      modifies this`written
      ensures written == old(written) + HandshakeOctets(lengthExp, serializerId)
    {
      written := written + [MAGIC_BYTE, lengthExp * 16 + serializerId % 16, 0, 0];
    }

    /** sendString: one payload as a frame, unless it is over the limit the peer announced. */
    method SendString(data: Octets) returns (ok: bool)
      requires Valid()
      modifies this`written, this`early, this`late
      ensures Valid() && ok == (|data| <= maxLengthSend)
      ensures !ok ==> early == old(early) && late == old(late)
      ensures ok && !handshakeDone && !closed ==> early == old(early) + Frame(data) && late == old(late)
      ensures ok && (handshakeDone || closed) ==> early == old(early) && late == old(late) + Frame(data)
    {
      if |data| > maxLengthSend {
        return false;
      }
      var prefix := PackUint32(|data|);
      WriteFrame(cfg, written, early, Receive(cfg, received).reply, late, data);
      written := written + prefix;
      written := written + data;
      if handshakeDone || closed {
        late := late + Frame(data);
      } else {
        early := early + Frame(data);
      }
      ok := true;
    }
  }
}
