/**
 * The query client itself: an object holding the server address, the
 * session id, the challenge token, the retry counter and the last ping,
 * whose methods update those fields as the conversation goes on.
 *
 * The socket is replaced by two fields: `network`, the outcomes the
 * coming reads will see (as in `Session`), and `sent`, every datagram
 * written so far. Each method is proved to move the object exactly as the
 * matching function of `Session` moves a `Session.State`, so the lemmas
 * proved there (retry limits, well-formed requests, preserved invariants)
 * hold of the object.
 */
module Client {
  import opened Bytes
  import opened Strings
  import opened Codec
  import Responses
  import Session

  /** The constructor's default arguments (line 47); the timeout is not
      part of this model. */
  const DEFAULT_PORT := 25565
  const DEFAULT_ID := 0
  const DEFAULT_RETRIES := 2

  class ServerQuery {
    const host: string
    const port: int
    const id: int
    const idPacked: seq<Byte>
    const maxRetries: int

    var challenge: Option<int>
    var challengePacked: seq<Byte>
    var retries: int
    var ping: Option<int>

    /** What the coming reads of the socket will see. */
    var network: seq<Session.Outcome>
    /** Every datagram written to the socket, oldest first. */
    var sent: seq<seq<Byte>>

    /** The fields the constructor fixes. */
    function Settings(): (r: Session.Config)
    {
      Session.Config(host, port, id, idPacked, maxRetries)
    }

    /** The fields the methods update. */
    function Snapshot(): (r: Session.State)
      reads this
    {
      Session.State(challenge, challengePacked, retries, ping, network, sent)
    }

    /** The packed id and token agree with the numbers they pack, and a
        known token comes with a ping (`Session.Valid`). */
    ghost predicate Valid()
      reads this
    {
      Session.Valid(Settings(), Snapshot())
    }

    /** `__construct` (lines 47-55): no challenge token yet, the packed
        token of zero, no retries counted. */
    constructor (host: string, network: seq<Session.Outcome>,
                 port: int := DEFAULT_PORT, id: int := DEFAULT_ID, retries: int := DEFAULT_RETRIES)
      ensures (Settings(), Snapshot()) == Session.Init(host, port, id, retries, network)
      ensures Valid()
    {
      this.host := host;
      this.port := port;
      this.id := id;
      this.idPacked := PackN(id);
      this.challengePacked := PackN(0);
      this.retries := 0;
      this.maxRetries := retries;
      this.challenge := None;
      this.ping := None;
      this.network := network;
      this.sent := [];
    }

    /** `sendRaw` (lines 62-66): the magic prefix and the data go out as
        one datagram. */
    method SendRaw(data: seq<Byte>)
      modifies this
      ensures Snapshot() == old(Snapshot()).(sent := old(sent) + [RawDatagram(data)])
    {
      sent := sent + [RawDatagram(data)];
    }

    /** `sendPacket` (lines 68-71): a request of the given type carrying
        the session id and the current challenge token. */
    method SendPacket(kind: Byte, data: seq<Byte>)
      modifies this
      ensures Snapshot() == Session.Send(Settings(), old(Snapshot()), kind, data)
    {
      SendRaw([kind] + idPacked + challengePacked + data);
    }

    /** `readPacket` (lines 73-86): a lost reply is the network error; a
        datagram is split into type, id and payload. `elapsed` is the
        round-trip time the clock shows for the datagram. */
    method ReadPacket() returns (r: Session.Result<Packet>, elapsed: int)
      modifies this
      ensures old(network) == [] ==> r == Session.Err(Session.Exhausted) && network == []
      ensures old(network) != [] ==> network == old(network)[1..]
      ensures old(network) != [] && old(network)[0].Fail? ==> r == Session.Err(Session.NetworkError)
      ensures old(network) != [] && old(network)[0].Reply? ==>
                r == Session.Ok(ReadSplit(old(network)[0].data)) && elapsed == old(network)[0].rtt
      ensures challenge == old(challenge) && challengePacked == old(challengePacked)
      ensures retries == old(retries) && ping == old(ping) && sent == old(sent)
    {
      elapsed := 0;
      if network == [] {
        return Session.Err(Session.Exhausted), elapsed;
      }
      var outcome := network[0];
      network := network[1..];
      match outcome
      case Fail =>
        r := Session.Err(Session.NetworkError);
      case Reply(data, rtt) =>
        r, elapsed := Session.Ok(ReadSplit(data)), rtt;
    }

    /** `handshake` (lines 88-113), proved to follow `Session.Handshake`. */
    method Handshake(bypass: bool) returns (r: Session.Result<()>)
      requires Valid()
      modifies this
      ensures (r, Snapshot()) == Session.Handshake(Settings(), old(Snapshot()), bypass)
      ensures Valid()
      decreases |network|
    {
      Session.HandshakeKeepsValid(Settings(), Snapshot(), bypass);
      SendPacket(PACKET_TYPE_CHALLENGE, []);
      var packet, elapsed := ReadPacket();
      if packet.Err? {
        if packet.error == Session.Exhausted {
          return Session.Err(Session.Exhausted);
        }
        if !bypass {
          retries := retries + 1;
        }
        if retries < maxRetries {
          r := Handshake(bypass);
        } else {
          r := Session.Err(Session.NetworkError);
        }
        return;
      }
      ping := Some(elapsed);
      challenge := Some(IntVal(ChopEnd(packet.value.payload, 1)));
      challengePacked := PackN(challenge.value);
      r := Session.Ok(());
    }

    /** The opening of `getStatus` and `getRules` (lines 117-119 and
        157-159): without a challenge token, a handshake that counts its
        losses comes first. */
    method Prepare() returns (h: Session.Result<()>)
      requires Valid()
      modifies this
      ensures var (p, s) := Session.Prepare(Settings(), old(Snapshot()));
              h.Ok? == p.Ok? && (h.Err? ==> h.error == p.error) && Snapshot() == s
      ensures Valid()
    {
      h := Session.Ok(());
      if Session.Empty(challenge) {
        h := Handshake(false);
      }
    }

    /** `getStatus` (lines 115-153), proved to follow `Session.Status`
        and to parse the reply as `Responses.ParseBasic` does. */
    method GetStatus() returns (r: Session.Result<Responses.BasicStatus>)
      requires Valid()
      modifies this
      ensures var (a, s) := Session.Status(Settings(), old(Snapshot()));
              Snapshot() == s && r == StatusReport(a)
      ensures Valid()
      decreases |network|
    {
      Session.StatusKeepsValid(Settings(), Snapshot());
      var h := Prepare();
      if h.Err? {
        return Session.Err(h.error);
      }
      SendPacket(PACKET_TYPE_QUERY, []);
      var packet, _ := ReadPacket();
      if packet.Err? {
        if packet.error == Session.Exhausted {
          return Session.Err(Session.Exhausted);
        }
        var h := Handshake(false);
        if h.Err? {
          return Session.Err(h.error);
        }
        r := GetStatus();
        return;
      }
      r := Session.Ok(Responses.ParseBasic(packet.value.payload, ping));
    }

    /** `getRules` (lines 155-219), proved to follow `Session.Rules` and
        to build the same array as `Responses.ParseRules`; the pairing of
        the tokens is the loop of `Responses.PairUp`. */
    method GetRules() returns (r: Session.Result<Responses.Rules>)
      requires Valid()
      modifies this
      ensures var (a, s) := Session.Rules(Settings(), old(Snapshot()));
              Snapshot() == s && r == RulesReport(a)
      ensures Valid()
      decreases |network|, 1
    {
      Session.RulesKeepsValid(Settings(), Snapshot());
      var h := Prepare();
      if h.Err? {
        return Session.Err(h.error);
      }
      r := QueryRules();
    }

    /** The query of `getRules` once a token is at hand (lines 161-216),
        proved to follow `Session.QueryRules`: a lost reply counts a retry
        and, below the limit, is followed by a handshake that does not count
        its own losses and a new `getRules`; otherwise the network error. */
    method QueryRules() returns (r: Session.Result<Responses.Rules>)
      requires Valid()
      modifies this
      ensures var (a, s) := Session.QueryRules(Settings(), old(Snapshot()));
              Snapshot() == s && r == RulesReport(a)
      ensures Valid()
      decreases |network|, 0
    {
      Session.QueryRulesKeepsValid(Settings(), Snapshot());
      SendPacket(PACKET_TYPE_QUERY, idPacked);
      var packet, _ := ReadPacket();
      if packet.Err? {
        if packet.error == Session.Exhausted {
          return Session.Err(Session.Exhausted);
        }
        retries := retries + 1;
        if retries < maxRetries {
          var h := Handshake(true);
          if h.Err? {
            return Session.Err(h.error);
          }
          r := GetRules();
        } else {
          r := Session.Err(Session.NetworkError);
        }
        return;
      }
      var data := BuildRules(packet.value.payload, ping);
      r := Session.Ok(data);
    }
  }

  /** What `getStatus` returns for the outcome of its conversation: the
      parsed basic status, or the error it throws. */
  function StatusReport(a: Session.Result<Session.Answer>): (r: Session.Result<Responses.BasicStatus>)
  {
    if a.Ok? then Session.Ok(Responses.ParseBasic(a.value.payload, a.value.ping)) else Session.Err(a.error)
  }

  /** What `getRules` returns for the outcome of its conversation: the
      parsed full status, or the error it throws. */
  function RulesReport(a: Session.Result<Session.Answer>): (r: Session.Result<Responses.Rules>)
  {
    if a.Ok? then Session.Ok(Responses.ParseRules(a.value.payload, a.value.ping)) else Session.Err(a.error)
  }

  /** The second half of `getRules` (lines 176-216): cut off the padding,
      split the key/value block from the player block, rename a leading
      "hostname", pair the tokens with the loop of lines 186-191, combine
      them and add the derived entries. The result is the full-status
      array `Responses.ParseRules` describes. */
  method BuildRules(payload: seq<Byte>, ping: Option<int>) returns (data: Responses.Rules)
    ensures data == Responses.ParseRules(payload, ping)
  {
    var blocks := Responses.SplitBlocks(payload);
    var items := Responses.RenameHostname(blocks.0);
    var tokens := Explode(items, [NUL]);
    var keys, values := Responses.PairUp(tokens);
    var pairs := Responses.Combine(keys, values);
    assert pairs == Responses.RulesData(payload);
    data := Responses.Finish(pairs, blocks.1, ping);
  }
}
