/**
 * The Twisted RawSocket transport: the opening handshake of both sides and the length
 * limits it settles. Frames themselves are handled by Twisted's own string receiver.
 */
module TwistedRawSocket {
  import opened Octets
  import opened Powers
  import opened Wrappers
  import RawSocket
  import RawSocketWire

  const MAX_MESSAGE_SIZE: nat := 0x100_0000

  datatype Role =
    | Client(serializerId: nat)
    | Server(supported: set<nat>)

  /** A protocol as the factory builds it; maxMessageSize is bounded by setProtocolOptions. */
  datatype Config = Config(role: Role, maxMessageSize: nat)

  predicate ValidConfig(cfg: Config) {
    && 512 <= cfg.maxMessageSize <= MAX_MESSAGE_SIZE
    && (cfg.role.Client? ==> cfg.role.serializerId <= 15)
  }

  /** The least power of two that holds every message up to maxMessageSize fits the nibble. */
  lemma ExponentFits(cfg: Config)
    requires ValidConfig(cfg)
    ensures var e := CeilLog2(cfg.maxMessageSize);
            && 9 <= e <= 24
            && Pow2(e - 1) < cfg.maxMessageSize <= Pow2(e)
  {
    var e := CeilLog2(cfg.maxMessageSize);
    Pow2Values();
    if e < 9 {
      Pow2Monotone(e, 8);
    }
    if e > 24 {
      Pow2Monotone(24, e - 1);
    }
  }

  /** The limit for received messages that the handshake announces. */
  function ReceiveLimit(cfg: Config): nat
    requires ValidConfig(cfg)
  {
    Pow2(CeilLog2(cfg.maxMessageSize))
  }

  lemma ReceiveLimitBounds(cfg: Config)
    requires ValidConfig(cfg)
    ensures cfg.maxMessageSize <= ReceiveLimit(cfg) < 2 * cfg.maxMessageSize
  {
    ExponentFits(cfg);
  }

  function Opening(cfg: Config, serializerId: nat): Octets
    requires ValidConfig(cfg) && serializerId <= 15
  {
    ExponentFits(cfg);
    [0x7F, (CeilLog2(cfg.maxMessageSize) - 9) * 16 + serializerId, 0, 0]
  }

  lemma OpeningInParts(cfg: Config, serializerId: nat, before: Octets)
    requires ValidConfig(cfg) && serializerId <= 15
    ensures 0 <= (CeilLog2(cfg.maxMessageSize) - 9) * 16 + serializerId <= 255
    ensures before + [0x7F] + [(CeilLog2(cfg.maxMessageSize) - 9) * 16 + serializerId] + [0, 0]
            == before + Opening(cfg, serializerId)
  {
    ExponentFits(cfg);
  }

  lemma Nibbles(high: nat, low: nat)
    requires low < 16
    ensures (high * 16 + low) / 16 == high && (high * 16 + low) % 16 == low
  {
  }

  lemma OpeningFields(cfg: Config, serializerId: nat)
    requires ValidConfig(cfg) && serializerId <= 15
    ensures var b := Opening(cfg, serializerId);
            && |b| == 4 && b[0] == 0x7F && b[1] % 16 == serializerId
            && Pow2(9 + b[1] / 16) == ReceiveLimit(cfg)
  {
    ExponentFits(cfg);
    Nibbles(CeilLog2(cfg.maxMessageSize) - 9, serializerId);
  }

  function Hello(cfg: Config): Octets
    requires ValidConfig(cfg)
  {
    if cfg.role.Client? then Opening(cfg, cfg.role.serializerId) else []
  }

  /** Whether the four octets of the peer are accepted; the reserved octets are not looked at. */
  predicate Accepts(cfg: Config, b: Octets)
    requires |b| == 4
  {
    b[0] == 0x7F && match cfg.role
                    case Client(id) => b[1] % 16 == id
                    case Server(supported) => b[1] % 16 in supported
  }

  function Reply(cfg: Config, b: Octets): Octets
    requires ValidConfig(cfg) && |b| == 4
  {
    if cfg.role.Server? && Accepts(cfg, b) then Opening(cfg, b[1] % 16) else []
  }

  class WampRawSocketProtocol {
    const cfg: Config
    var handshakeBytes: Octets
    var handshakeComplete: bool
    var maxLenSend: Option<nat>
    var receiveLimit: nat
    var serializer: Option<nat>
    var aborted: bool
    var written: Octets

    /** What has been passed on to the string receiver. */
    var forwarded: Octets

    ghost var received: Octets

    /** The state as a function of everything received. */
    ghost predicate Valid()
      reads this
    {
      && ValidConfig(cfg)
      && handshakeBytes == received[..if |received| < 4 then |received| else 4]
      && (|received| < 4 ==> !handshakeComplete && !aborted && written == Hello(cfg) && forwarded == [] && maxLenSend == None)
      && (|received| >= 4 ==>
            && handshakeComplete == Accepts(cfg, received[..4]) && aborted == !handshakeComplete
            && written == Hello(cfg) + Reply(cfg, received[..4]))
      && (handshakeComplete ==>
            && maxLenSend == Some(Pow2(9 + received[1] / 16)) && serializer == Some(received[1] % 16)
            && forwarded == received[4..])
      && (handshakeComplete || cfg.role.Client? ==> receiveLimit == ReceiveLimit(cfg))
    }

    /** buildProtocol and connectionMade. */
    constructor (cfg: Config)
      requires ValidConfig(cfg)
      ensures Valid() && this.cfg == cfg && received == []
    {
      this.cfg := cfg;
      handshakeBytes := [];
      handshakeComplete := false;
      maxLenSend := None;
      aborted := false;
      forwarded := [];
      received := [];
      written := Hello(cfg);
      if cfg.role.Client? {
        serializer := Some(cfg.role.serializerId);
        receiveLimit := Pow2(CeilLog2(cfg.maxMessageSize));
      } else {
        serializer := None;
        receiveLimit := cfg.maxMessageSize;
      }
    }

    /**
     * dataReceived. Before there is a session, abort() itself raises, so a handshake that is
     * not accepted ends the connection there.
     */
    method DataReceived(data: Octets)
      requires Valid() && !aborted
      modifies this
      ensures Valid() && received == old(received) + data
      decreases |data|
    {
      if handshakeComplete {
        assert (received + data)[4..] == received[4..] + data;
        received := received + data;
        forwarded := forwarded + data;
      } else {
        var remaining := 4 - |handshakeBytes|;
        var take := if |data| < remaining then |data| else remaining;
        var rest := data[take..];
        assert data == data[..take] + rest && received == handshakeBytes;
        handshakeBytes := handshakeBytes + data[..take];
        if |handshakeBytes| == 4 {
          CompleteHandshake();
        }
        if aborted {
          received := received + data;
          assert received[..4] == handshakeBytes;
        } else {
          received := handshakeBytes;
          if rest != [] {
            DataReceived(rest);
          }
        }
      }
    }

    /** The part of dataReceived that runs once, on the four octets collected. */
    method CompleteHandshake()
      requires ValidConfig(cfg) && |handshakeBytes| == 4 && !handshakeComplete && !aborted
      modifies this`aborted, this`maxLenSend, this`serializer, this`receiveLimit, this`written, this`handshakeComplete
      ensures handshakeComplete == Accepts(cfg, handshakeBytes) && aborted == !handshakeComplete
      ensures written == old(written) + Reply(cfg, handshakeBytes)
      ensures handshakeComplete ==>
        && maxLenSend == Some(Pow2(9 + handshakeBytes[1] / 16)) && serializer == Some(handshakeBytes[1] % 16)
        && receiveLimit == if cfg.role.Server? then ReceiveLimit(cfg) else old(receiveLimit)
      ensures cfg.role.Client? ==> receiveLimit == old(receiveLimit)
    {
      if handshakeBytes[0] != 0x7F {
        aborted := true;
        return;
      }
      maxLenSend := Some(Pow2(9 + handshakeBytes[1] / 16));
      var id := handshakeBytes[1] % 16;
      if cfg.role.Server? {
        Choose(id);
      } else if id != cfg.role.serializerId {
        aborted := true;
      } else {
        serializer := Some(id);
      }
      handshakeComplete := !aborted;
    }

    /** The server's choice of a serializer, and its reply. */
    method Choose(id: nat)
      requires ValidConfig(cfg) && cfg.role.Server? && id <= 15 && !aborted
      modifies this`aborted, this`serializer, this`receiveLimit, this`written
      ensures aborted <==> id !in cfg.role.supported
      ensures aborted ==> serializer == old(serializer) && receiveLimit == old(receiveLimit) && written == old(written)
      ensures !aborted ==>
        && serializer == Some(id) && receiveLimit == ReceiveLimit(cfg)
        && written == old(written) + Opening(cfg, id)
    {
      if id !in cfg.role.supported {
        aborted := true;
        return;
      }
      serializer := Some(id);
      var e := CeilLog2(cfg.maxMessageSize);
      receiveLimit := Pow2(e);
      OpeningInParts(cfg, id, written);
      written := written + [0x7F] + [(e - 9) * 16 + id] + [0, 0];
    }

    /** The length check of send, which precedes the string receiver's sendString. */
    method MaySend(payload: Octets) returns (ok: bool)
      requires Valid() && handshakeComplete
      ensures ok <==> |payload| <= Pow2(9 + received[1] / 16)
    {
      ok := !(0 < maxLenSend.value < |payload|);
    }
  }

  /**
   * A client and a server that supports its serializer accept each other's opening, and the
   * limit each side then sends by is the limit the other receives by.
   */
  lemma LimitsAgree(client: Config, server: Config)
    requires ValidConfig(client) && ValidConfig(server) && client.role.Client? && server.role.Server?
    ensures var hello := Hello(client);
            var reply := Reply(server, hello);
            && (Accepts(server, hello) <==> client.role.serializerId in server.role.supported)
            && (Accepts(server, hello) ==>
                  && |reply| == 4 && Accepts(client, reply)
                  && hello[1] % 16 == reply[1] % 16 == client.role.serializerId
                  && Pow2(9 + hello[1] / 16) == ReceiveLimit(client)
                  && Pow2(9 + reply[1] / 16) == ReceiveLimit(server))
  {
    OpeningFields(client, client.role.serializerId);
    OpeningFields(server, client.role.serializerId);
  }

  /** Both ends of a connection that has been opened, in any chunks. */
  ghost predicate Opened(client: WampRawSocketProtocol, server: WampRawSocketProtocol)
    reads client, server
  {
    && client.Valid() && server.Valid() && client.cfg.role.Client? && server.cfg.role.Server?
    && client.handshakeComplete && server.handshakeComplete
    && server.received[..4] == Hello(client.cfg)
    && |server.written| >= 4 && client.received[..4] == server.written[..4]
  }

  lemma OpenedConnection(client: WampRawSocketProtocol, server: WampRawSocketProtocol)
    requires Opened(client, server)
    ensures client.serializer == server.serializer == Some(client.cfg.role.serializerId)
    ensures client.maxLenSend == Some(server.receiveLimit) && server.maxLenSend == Some(client.receiveLimit)
    ensures server.cfg.maxMessageSize <= server.receiveLimit < 2 * server.cfg.maxMessageSize
    ensures client.cfg.maxMessageSize <= client.receiveLimit < 2 * client.cfg.maxMessageSize
  {
    ReceiveLimitBounds(client.cfg);
    ReceiveLimitBounds(server.cfg);
    LimitsAgree(client.cfg, server.cfg);
    assert server.written == Reply(server.cfg, server.received[..4]);
    assert client.received[..4][1] == client.received[1] && server.received[..4][1] == server.received[1];
  }

  /** What a client may send is exactly what its server receives. */
  method ClientSend(client: WampRawSocketProtocol, server: WampRawSocketProtocol, payload: Octets) returns (ok: bool)
    requires Opened(client, server)
    ensures ok <==> |payload| <= server.receiveLimit
  {
    ok := client.MaySend(payload);
    OpenedConnection(client, server);
  }

  /** And the other way round. */
  method ServerSend(server: WampRawSocketProtocol, client: WampRawSocketProtocol, payload: Octets) returns (ok: bool)
    requires Opened(client, server)
    ensures ok <==> |payload| <= client.receiveLimit
  {
    ok := server.MaySend(payload);
    OpenedConnection(client, server);
  }

  /** The asyncio transport speaks the same handshake: it reads what a Twisted endpoint writes. */
  lemma OpensLikeAsyncio(cfg: Config, serializerId: nat)
    requires ValidConfig(cfg) && serializerId <= 15
    ensures var e := CeilLog2(cfg.maxMessageSize) - 9;
            && 0 <= e <= 15
            && Opening(cfg, serializerId) == RawSocket.HandshakeOctets(e, serializerId)
            && ReceiveLimit(cfg) == RawSocket.MaxLength(RawSocket.Config(RawSocket.Client(serializerId), e))
  {
    ExponentFits(cfg);
  }

  // ---------------------------------------------------------------- in octets

  /** What an object has settled once it has received four octets, in whatever chunks. */
  lemma {:induction false} SettledByFourOctets(p: WampRawSocketProtocol)
    requires p.Valid() && |p.received| >= 4
    ensures var id, limit := p.received[1] % 16, RawSocketWire.LIMITS[p.received[1] / 16];
            && p.aborted == !p.handshakeComplete
            && (match p.cfg.role
                case Client(own) => p.handshakeComplete <==> p.received[0] == 127 && id == own
                case Server(supported) => p.handshakeComplete <==> p.received[0] == 127 && id in supported)
            && (p.handshakeComplete ==>
                  p.serializer == Some(id) && p.maxLenSend == Some(limit) && p.forwarded == p.received[4..])
  {
    RawSocketWire.LimitOfNibble(p.received[1] / 16);
    assert p.received[..4][0] == p.received[0] && p.received[..4][1] == p.received[1];
  }

  lemma {:induction false} LeastExponent(n: nat, e: nat)
    requires n >= 1 && Pow2(e) >= n && (e > 0 ==> Pow2(e - 1) < n)
    ensures CeilLog2(n) == e
  {
    var c := CeilLog2(n);
    if c < e {
      Pow2Monotone(c, e - 1);
    } else if e < c {
      Pow2Monotone(e, c - 1);
    }
  }

  /** The opening of either side, for the exponent of the least power of two that is large enough. */
  lemma {:induction false} OpeningInOctets(cfg: Config, serializerId: nat, exponent: nat)
    requires ValidConfig(cfg) && serializerId <= 15 && exponent <= 15
    requires cfg.maxMessageSize <= RawSocketWire.LIMITS[exponent]
    requires exponent > 0 ==> RawSocketWire.LIMITS[exponent - 1] < cfg.maxMessageSize
    ensures Opening(cfg, serializerId) == [127, exponent * 16 + serializerId, 0, 0]
    ensures ReceiveLimit(cfg) == RawSocketWire.LIMITS[exponent]
  {
    RawSocketWire.LimitOfNibble(exponent);
    if exponent > 0 {
      RawSocketWire.LimitOfNibble(exponent - 1);
    } else {
      Pow2Values();
    }
    LeastExponent(cfg.maxMessageSize, exponent + 9);
  }
}
