/** What two connected RawSocket endpoints guarantee each other. */
module RawSocketTheorems {
  import opened Octets
  import opened Wrappers
  import opened RawSocket

  // ---------------------------------------------------------------- chunking

  /** The event loop: hands over the chunks one by one until the transport is closed. */
  method Deliver(p: RawSocketProtocol, chunks: seq<Octets>)
    requires p.Valid() && p.received == [] && !p.closed
    modifies p
    ensures p.Valid() && p.early == old(p.early) && p.late == old(p.late)
    ensures var o := Receive(p.cfg, Flatten(chunks));
            && p.events == o.events && p.closed == o.failed && p.handshakeDone == o.handshakeDone
            && p.written == Written(p.cfg, p.early, o.reply, p.late)
            && p.maxLengthSend == o.sendLimit && p.serializer == o.serializer
            && (!p.closed ==> p.buffer == o.rest && p.received == Flatten(chunks))
  {
    var i := 0;
    assert chunks[..0] == [];
    while i < |chunks| && !p.closed
      invariant 0 <= i <= |chunks|
      invariant p.Valid() && p.early == old(p.early) && p.late == old(p.late) && p.received == Flatten(chunks[..i])
    {
      FlattenSnoc(chunks[..i], chunks[i]);
      assert chunks[..i + 1] == chunks[..i] + [chunks[i]];
      p.DataReceived(chunks[i]);
      i := i + 1;
    }
    FlattenConcat(chunks[..i], chunks[i..]);
    assert chunks[..i] + chunks[i..] == chunks;
    ghost var all := Flatten(chunks);
    ghost var o := Receive(p.cfg, p.received);
    if p.closed {
      ErrorIsFinal(p.cfg, p.received, Flatten(chunks[i..]));
      assert p.received + Flatten(chunks[i..]) == all;
      assert Receive(p.cfg, all) == o.(rest := Receive(p.cfg, all).rest);
    } else {
      assert chunks[i..] == [] && p.received + [] == all && p.received == all;
    }
  }

  /** The outcome of the object after each chunk, until it closes the transport. */
  ghost function Run(cfg: Config, received: Octets, chunks: seq<Octets>): Outcome
    requires ValidConfig(cfg)
    decreases |chunks|
  {
    if chunks == [] || Receive(cfg, received).failed then Receive(cfg, received)
    else Run(cfg, received + chunks[0], chunks[1..])
  }

  lemma {:induction false} RunReceivesAll(cfg: Config, received: Octets, chunks: seq<Octets>)
    requires ValidConfig(cfg)
    ensures var r, o := Run(cfg, received, chunks), Receive(cfg, received + Flatten(chunks));
            r == o.(rest := r.rest) && (!o.failed ==> r == o)
    decreases |chunks|
  {
    if Receive(cfg, received).failed {
      ErrorIsFinal(cfg, received, Flatten(chunks));
    } else if chunks == [] {
      assert received + Flatten(chunks) == received;
    } else {
      RunReceivesAll(cfg, received + chunks[0], chunks[1..]);
      assert received + Flatten(chunks) == received + chunks[0] + Flatten(chunks[1..]);
    }
  }

  /** Two ways to cut the same octets lead to the same events, and without an error to the same buffer. */
  lemma {:induction false} ChunkingIsIrrelevant(cfg: Config, a: seq<Octets>, b: seq<Octets>)
    requires ValidConfig(cfg) && Flatten(a) == Flatten(b)
    ensures Run(cfg, [], a) == Run(cfg, [], b).(rest := Run(cfg, [], a).rest)
    ensures !Run(cfg, [], a).failed ==> Run(cfg, [], a) == Run(cfg, [], b)
  {
    RunReceivesAll(cfg, [], a);
    RunReceivesAll(cfg, [], b);
    assert [] + Flatten(a) == [] + Flatten(b);
  }

  // ---------------------------------------------------------------- the handshake

  /**
   * A server that supports what the client asks for ends up with the same serializer,
   * and each side sends at most what the other receives.
   */
  lemma HandshakeAgreement(client: Config, server: Config)
    requires ValidConfig(client) && ValidConfig(server) && client.role.Client? && server.role.Server?
    ensures var atServer := Handshake(server, Hello(client));
            var atClient := Handshake(client, atServer.reply);
            if client.role.serializerId in server.role.supported then
              && atServer.error == atClient.error == None
              && atServer.serializer == atClient.serializer == client.role.serializerId
              && atServer.sendLimit == MaxLength(client) && atClient.sendLimit == MaxLength(server)
            else
              && atServer.error == Some(SerializerUnsupported(client.role.serializerId))
              && atClient.error == Some(ServerReturnedError(ERR_SERIALIZER_UNSUPPORTED))
  {
  }

  // ---------------------------------------------------------------- framing

  /** What sendString lets through, for some limit the peer may announce. */
  ghost predicate Sendable(payloads: seq<Octets>, limit: nat) {
    limit <= TWO_TO_THE_24 && forall i :: 0 <= i < |payloads| ==> |payloads[i]| <= limit
  }

  function FramesOf(payloads: seq<Octets>, limit: nat): Octets
    requires Sendable(payloads, limit)
  {
    if payloads == [] then [] else Frame(payloads[0]) + FramesOf(payloads[1..], limit)
  }

  function StringsReceived(payloads: seq<Octets>): seq<Event> {
    if payloads == [] then [] else [StringReceived(payloads[0])] + StringsReceived(payloads[1..])
  }

  /** The prefix of a frame reads back as it was written, except for a payload of exactly 2^24 octets. */
  lemma FramePrefix(payload: Octets, rest: Octets)
    requires |payload| <= TWO_TO_THE_24
    ensures var s := Frame(payload) + rest;
            if |payload| < TWO_TO_THE_24 then FrameType(s) == FRAME_TYPE_DATA && FrameLength(s) == |payload|
            else FrameType(s) == FRAME_TYPE_PING && FrameLength(s) == 0
  {
    var n := |payload|;
    var s := Frame(payload) + rest;
    var b := PackUint32(n);
    assert s[0] == b[0] && s[1..4] == b[1..];
    if n < TWO_TO_THE_24 {
      assert b[0] == 0 && [0] + b[1..] == b;
      UnpackPack(n);
    } else {
      assert b == [1, 0, 0, 0] && [0] + b[1..] == PackUint32(0);
      UnpackPack(0);
    }
  }

  lemma {:induction false} ParseFrame(limit: nat, payload: Octets, rest: Octets)
    requires |payload| <= limit <= TWO_TO_THE_24
    ensures var p := ParseFrames(limit, Frame(payload) + rest);
            if |payload| < TWO_TO_THE_24 then
              var q := ParseFrames(limit, rest);
              p == q.(events := [StringReceived(payload)] + q.events)
            else p.events != [] && p.events[0] == PingReceived([])
  {
    FramePrefix(payload, rest);
    var s := Frame(payload) + rest;
    var m := PREFIX_LENGTH + FrameLength(s);
    assert s[..m][1..4] == s[1..4];
    ParseOneFrame(limit, s[..m], s[m..]);
    assert s[..m] + s[m..] == s;
    if |payload| < TWO_TO_THE_24 {
      assert s[..m][PREFIX_LENGTH..m] == payload;
      assert s[..m][m..] + s[m..] == rest;
    } else {
      assert s[..m][PREFIX_LENGTH..m] == [];
    }
  }

  /**
   * Frames arrive as they were sent exactly when no payload has 2^24 octets, the one length
   * that sendString admits and the prefix cannot carry.
   */
  lemma {:induction false} FramesRoundTrip(limit: nat, payloads: seq<Octets>)
    requires Sendable(payloads, limit)
    ensures ParseFrames(limit, FramesOf(payloads, limit)) == Parsed(StringsReceived(payloads), [], false)
            <==> forall i :: 0 <= i < |payloads| ==> |payloads[i]| < TWO_TO_THE_24
  {
    if payloads != [] {
      ParseFrame(limit, payloads[0], FramesOf(payloads[1..], limit));
      FramesRoundTrip(limit, payloads[1..]);
      assert StringsReceived(payloads)[1..] == StringsReceived(payloads[1..]);
    }
  }

  /** A payload of 2^24 octets is sent by an endpoint and lost by its peer. */
  lemma FrameOfMaximalSizeIsLost(payload: Octets)
    requires |payload| == TWO_TO_THE_24
    ensures Sendable([payload], TWO_TO_THE_24)
    ensures ParseFrames(TWO_TO_THE_24, FramesOf([payload], TWO_TO_THE_24)).events != StringsReceived([payload])
  {
    ParseFrame(TWO_TO_THE_24, payload, FramesOf([], TWO_TO_THE_24));
  }

  // ---------------------------------------------------------------- end to end

  /**
   * What one side receives from the other: the opening octets of the other and its frames,
   * in any chunks, give a session and exactly the payloads.
   */
  lemma {:induction false} PayloadsArrive(cfg: Config, opening: Octets, payloads: seq<Octets>, chunks: seq<Octets>)
    requires ValidConfig(cfg) && |opening| == 4 && Handshake(cfg, opening).error == None
    requires Sendable(payloads, MaxLength(cfg))
    requires forall i :: 0 <= i < |payloads| ==> |payloads[i]| < TWO_TO_THE_24
    requires Flatten(chunks) == opening + FramesOf(payloads, MaxLength(cfg))
    ensures var r := Run(cfg, [], chunks);
            && r.events == [HandshakeComplete] + StringsReceived(payloads)
            && r.handshakeDone && !r.failed && r.rest == []
  {
    var s := opening + FramesOf(payloads, MaxLength(cfg));
    RunReceivesAll(cfg, [], chunks);
    assert [] + Flatten(chunks) == s;
    assert s[..4] == opening && s[4..] == FramesOf(payloads, MaxLength(cfg));
    FramesRoundTrip(MaxLength(cfg), payloads);
  }

  /**
   * End to end: a client and a server that supports its serializer, each sending payloads
   * within the limit it was told, both receive exactly what the other sent.
   */
  lemma {:induction false} EndToEnd(client: Config, server: Config, up: seq<Octets>, down: seq<Octets>,
                                    upChunks: seq<Octets>, downChunks: seq<Octets>)
    requires ValidConfig(client) && ValidConfig(server) && client.role.Client? && server.role.Server?
    requires client.role.serializerId in server.role.supported
    requires var reply := Handshake(server, Hello(client)).reply;
             && Sendable(up, Handshake(client, reply).sendLimit)
             && Sendable(down, Handshake(server, Hello(client)).sendLimit)
    requires forall i :: 0 <= i < |up| ==> |up[i]| < TWO_TO_THE_24
    requires forall i :: 0 <= i < |down| ==> |down[i]| < TWO_TO_THE_24
    requires Flatten(upChunks) == Hello(client) + FramesOf(up, MaxLength(server))
    requires Flatten(downChunks) == Handshake(server, Hello(client)).reply + FramesOf(down, MaxLength(client))
    ensures Run(server, [], upChunks).events == [HandshakeComplete] + StringsReceived(up)
    ensures Run(client, [], downChunks).events == [HandshakeComplete] + StringsReceived(down)
    ensures Run(server, [], upChunks).serializer == Run(client, [], downChunks).serializer == Some(client.role.serializerId)
  {
    HandshakeAgreement(client, server);
    PayloadsArrive(server, Hello(client), up, upChunks);
    PayloadsArrive(client, Handshake(server, Hello(client)).reply, down, downChunks);
    RunReceivesAll(server, [], upChunks);
    RunReceivesAll(client, [], downChunks);
    assert ([] + Flatten(upChunks))[..4] == Hello(client);
    assert ([] + Flatten(downChunks))[..4] == Handshake(server, Hello(client)).reply;
  }

  // ---------------------------------------------------------------- two objects

  /** Sends payloads one after the other. */
  method SendAll(p: RawSocketProtocol, payloads: seq<Octets>)
    requires p.Valid() && p.handshakeDone && forall i :: 0 <= i < |payloads| ==> |payloads[i]| <= p.maxLengthSend
    modifies p`written, p`early, p`late
    ensures p.Valid() && p.early == old(p.early)
    ensures Sendable(payloads, p.maxLengthSend) && p.late == old(p.late) + FramesOf(payloads, p.maxLengthSend)
  {
    var i := 0;
    assert FramesOf(payloads[..0], p.maxLengthSend) == [] && old(p.late) + [] == old(p.late);
    while i < |payloads|
      invariant 0 <= i <= |payloads| && p.Valid() && p.early == old(p.early)
      invariant Sendable(payloads[..i], p.maxLengthSend)
      invariant p.late == old(p.late) + FramesOf(payloads[..i], p.maxLengthSend)
    {
      FramesSnoc(payloads[..i], payloads[i], p.maxLengthSend);
      assert payloads[..i + 1] == payloads[..i] + [payloads[i]];
      var ok := p.SendString(payloads[i]);
      i := i + 1;
    }
    assert payloads[..i] == payloads;
  }

  lemma {:induction false} FramesSnoc(payloads: seq<Octets>, payload: Octets, limit: nat)
    requires Sendable(payloads, limit) && |payload| <= limit
    ensures Sendable(payloads + [payload], limit)
    ensures forall before :: before + FramesOf(payloads, limit) + Frame(payload) == before + FramesOf(payloads + [payload], limit)
  {
    FramesSnocOnly(payloads, payload, limit);
  }

  lemma {:induction false} FramesSnocOnly(payloads: seq<Octets>, payload: Octets, limit: nat)
    requires Sendable(payloads, limit) && |payload| <= limit
    ensures Sendable(payloads + [payload], limit)
    ensures FramesOf(payloads + [payload], limit) == FramesOf(payloads, limit) + Frame(payload)
  {
    if payloads == [] {
      assert FramesOf([payload], limit) == Frame(payload) + FramesOf([], limit);
    } else {
      FramesSnocOnly(payloads[1..], payload, limit);
      assert (payloads + [payload])[1..] == payloads[1..] + [payload];
    }
  }

  lemma {:induction false} ReceiveFramesAfter(cfg: Config, opening: Octets, payloads: seq<Octets>, limit: nat)
    requires ValidConfig(cfg) && |opening| == 4 && Handshake(cfg, opening).error == None && limit == MaxLength(cfg)
    requires Sendable(payloads, limit) && forall i :: 0 <= i < |payloads| ==> |payloads[i]| < TWO_TO_THE_24
    ensures var o := Receive(cfg, opening + FramesOf(payloads, limit));
            && o.events == [HandshakeComplete] + StringsReceived(payloads) && !o.failed && o.rest == []
            && o.serializer == Some(Handshake(cfg, opening).serializer) && o.sendLimit == Handshake(cfg, opening).sendLimit
            && o.reply == Handshake(cfg, opening).reply
  {
    var s := opening + FramesOf(payloads, limit);
    assert s[..4] == opening && s[4..] == FramesOf(payloads, limit);
    FramesRoundTrip(limit, payloads);
  }

  lemma ClientWrites(cfg: Config, received: Octets, frames: Octets)
    requires ValidConfig(cfg) && cfg.role.Client?
    ensures Written(cfg, [], Receive(cfg, received).reply, frames) == Hello(cfg) + frames
  {
    assert Receive(cfg, received).reply == [];
  }

  lemma ServerWrites(cfg: Config, received: Octets, frames: Octets)
    requires ValidConfig(cfg) && cfg.role.Server?
    ensures Written(cfg, [], Receive(cfg, received).reply, frames) == Receive(cfg, received).reply + frames
  {
  }

  lemma ServerIsToldTheLimit(client: Config, server: Config, frames: Octets)
    requires ValidConfig(client) && ValidConfig(server) && client.role.Client? && server.role.Server?
    requires client.role.serializerId in server.role.supported
    ensures var s := Receive(server, Hello(client) + frames);
            s.reply == Handshake(server, Hello(client)).reply && s.sendLimit == MaxLength(client)
  {
    HandshakeAgreement(client, server);
    assert (Hello(client) + frames)[..4] == Hello(client);
  }

  lemma ClientIsToldTheLimit(client: Config, server: Config, frames: Octets)
    requires ValidConfig(client) && ValidConfig(server) && client.role.Client? && server.role.Server?
    requires client.role.serializerId in server.role.supported
    ensures var reply := Handshake(server, Hello(client)).reply;
            Receive(client, reply + frames).sendLimit == MaxLength(server)
  {
    HandshakeAgreement(client, server);
    var reply := Handshake(server, Hello(client)).reply;
    assert (reply + frames)[..4] == reply;
  }

  /**
   * Two objects whose transports are connected: once everything written has been delivered, in
   * whatever chunks, each has received exactly the payloads that the other handed to
   * sendString after the handshake.
   */
  lemma {:induction false} ConnectedEndToEnd(client: RawSocketProtocol, server: RawSocketProtocol,
                                              up: seq<Octets>, down: seq<Octets>)
    requires client.Valid() && server.Valid() && client.cfg.role.Client? && server.cfg.role.Server?
    requires client.cfg.role.serializerId in server.cfg.role.supported
    requires client.early == [] && server.early == []
    requires Sendable(up, client.maxLengthSend) && client.late == FramesOf(up, client.maxLengthSend)
    requires Sendable(down, server.maxLengthSend) && server.late == FramesOf(down, server.maxLengthSend)
    requires forall i :: 0 <= i < |up| ==> |up[i]| < TWO_TO_THE_24
    requires forall i :: 0 <= i < |down| ==> |down[i]| < TWO_TO_THE_24
    requires server.received == client.written && client.received == server.written
    ensures server.events == [HandshakeComplete] + StringsReceived(up) && !server.closed
    ensures client.events == [HandshakeComplete] + StringsReceived(down) && !client.closed
    ensures server.serializer == client.serializer == Some(client.cfg.role.serializerId)
    ensures server.maxLengthSend == client.maxLength && client.maxLengthSend == server.maxLength
  {
    ClientWrites(client.cfg, client.received, client.late);
    ServerIsToldTheLimit(client.cfg, server.cfg, client.late);
    ServerWrites(server.cfg, server.received, server.late);
    ClientIsToldTheLimit(client.cfg, server.cfg, server.late);
    HandshakeAgreement(client.cfg, server.cfg);
    ReceiveFramesAfter(server.cfg, Hello(client.cfg), up, client.maxLengthSend);
    ReceiveFramesAfter(client.cfg, Handshake(server.cfg, Hello(client.cfg)).reply, down, server.maxLengthSend);
  }
}
