/**
 * The conversation of the query client with a server, as a function of the
 * client's state: the challenge handshake with its retry rules, and the
 * basic-status and full-status queries that perform a handshake first when
 * no challenge token is known and recover from a lost reply.
 *
 * The network is a script of what each read will see, in order: a lost or
 * timed-out reply (`Fail`) or a datagram together with the round-trip time
 * the client measured for it. Reading past the end of the script yields
 * `Exhausted`, which stands for "the network never answers again"; it is
 * how a conversation that would go on forever shows up in the model.
 */
module Session {
  import opened Bytes
  import opened Strings
  import opened Codec

  /** What one read of the socket sees. */
  datatype Outcome = Fail | Reply(data: seq<Byte>, rtt: int)

  /** `NetworkException`, or the end of the script. */
  datatype Error = NetworkError | Exhausted

  datatype Result<T> = Ok(value: T) | Err(error: Error)

  /** The reply payload of a query and the ping recorded when it came. */
  datatype Answer = Answer(payload: seq<Byte>, ping: Option<int>)

  /** The fields the constructor fixes. */
  datatype Config = Config(host: string, port: int, id: int, idPacked: seq<Byte>, maxRetries: int)

  /** The fields the client updates, the network still to come, and every
      datagram sent so far. */
  datatype State = State(
    challenge: Option<int>,
    challengePacked: seq<Byte>,
    retries: int,
    ping: Option<int>,
    script: seq<Outcome>,
    sent: seq<seq<Byte>>)

  /** The constructor of the client (lines 47-55). */
  function Init(host: string, port: int, id: int, maxRetries: int, script: seq<Outcome>): (r: (Config, State))
    ensures Valid(r.0, r.1) && r.1.sent == [] && r.1.retries == 0 && r.1.challenge.None?
  {
    (Config(host, port, id, PackN(id), maxRetries), State(None, PackN(0), 0, None, script, []))
  }

  /** The consistency of the packed fields with the numbers they pack, and
      a recorded ping once a challenge is known. */
  ghost predicate Valid(cfg: Config, s: State)
  {
    && cfg.idPacked == PackN(cfg.id)
    && s.challengePacked == PackN(if s.challenge.Some? then s.challenge.value else 0)
    && (!Empty(s.challenge) ==> s.ping.Some?)
  }

  /** PHP's `empty` on the challenge: not set, or zero. */
  predicate Empty(challenge: Option<int>)
  {
    challenge.None? || challenge.value == 0
  }

  /** The challenge token a handshake reply carries: the payload without
      its final byte, read as an integer (line 111). */
  function ChallengeOf(data: seq<Byte>): (r: int)
  {
    IntVal(ChopEnd(ReadSplit(data).payload, 1))
  }

  /** `sendPacket`: a request with the current challenge token is sent. */
  function Send(cfg: Config, s: State, kind: Byte, data: seq<Byte>): (r: State)
  {
    s.(sent := s.sent + [Request(kind, cfg.idPacked, s.challengePacked, data)])
  }

  /** How many outcomes of the script are losses. */
  function Failures(outs: seq<Outcome>): (r: nat)
    ensures Failures(outs) <= |outs|
  {
    if outs == [] then 0 else (if outs[0].Fail? then 1 else 0) + Failures(outs[1..])
  }

  /** The outcomes a call consumed from the script. */
  function Consumed(before: State, after: State): (r: seq<Outcome>)
    requires |after.script| <= |before.script|
  {
    before.script[..|before.script| - |after.script|]
  }

  /** What a call consumed is the first outcome and what the rest of it
      consumed. */
  lemma ConsumedStep(before: State, mid: State, after: State)
    requires |before.script| >= 1 && mid.script == before.script[1..] && |after.script| <= |mid.script|
    ensures Consumed(before, after) == [before.script[0]] + Consumed(mid, after)
    ensures Failures(Consumed(before, after)) == (if before.script[0].Fail? then 1 else 0) + Failures(Consumed(mid, after))
  {
    assert Consumed(before, after)[1..] == Consumed(mid, after);
  }

  /** The handshake (lines 88-113): a challenge request; on a
      lost reply the retry counter grows unless bypassed, and the handshake
      starts again while the counter is below the limit and fails with the
      network error otherwise; on a reply the ping and the challenge token
      are recorded. */
  function Handshake(cfg: Config, s: State, bypass: bool): (r: (Result<()>, State))
    ensures |r.1.script| < |s.script| || (r.1.script == s.script == [] && r.0 == Err(Exhausted))
    ensures r.1.script == s.script[|s.script| - |r.1.script|..]
    ensures |r.1.sent| > |s.sent| && r.1.sent[..|s.sent|] == s.sent
    ensures r.1.retries >= s.retries
    decreases |s.script|
  {
    var s1 := Send(cfg, s, PACKET_TYPE_CHALLENGE, []);
    if s1.script == [] then (Err(Exhausted), s1)
    else match s1.script[0]
      case Fail =>
        var s2 := s1.(script := s1.script[1..], retries := if bypass then s1.retries else s1.retries + 1);
        if s2.retries < cfg.maxRetries then
          var r := Handshake(cfg, s2, bypass);
          assert r.1.sent[..|s.sent|] == r.1.sent[..|s2.sent|][..|s.sent|];
          r
        else (Err(NetworkError), s2)
      case Reply(data, rtt) =>
        var c := ChallengeOf(data);
        (Ok(()), s1.(script := s1.script[1..], ping := Some(rtt), challenge := Some(c), challengePacked := PackN(c)))
  }

  /** The handshake of a query when no challenge token is known (lines
      117-119 and 157-159). */
  function Prepare(cfg: Config, s: State): (r: (Result<()>, State))
    ensures |r.1.script| <= |s.script| && r.1.script == s.script[|s.script| - |r.1.script|..]
    ensures r.1.retries >= s.retries
  {
    if Empty(s.challenge) then Handshake(cfg, s, false) else (Ok(()), s)
  }

  /** `getStatus` up to the parse of the reply (lines 117-128): a failed
      query is followed by a handshake and a new query, with no retry
      counted for the query itself. */
  function Status(cfg: Config, s: State): (r: (Result<Answer>, State))
    ensures |r.1.script| <= |s.script|
    decreases |s.script|
  {
    var (h, s1) := Prepare(cfg, s);
    if h.Err? then (Err(h.error), s1)
    else
      var s2 := Send(cfg, s1, PACKET_TYPE_QUERY, []);
      if s2.script == [] then (Err(Exhausted), s2)
      else match s2.script[0]
        case Fail =>
          var (h2, s3) := Handshake(cfg, s2.(script := s2.script[1..]), false);
          if h2.Err? then (Err(h2.error), s3) else Status(cfg, s3)
        case Reply(data, _) =>
          (Ok(Answer(ReadSplit(data).payload, s2.ping)), s2.(script := s2.script[1..]))
  }

  /** `getRules` up to the parse of the reply (lines 157-174): the
      handshake a missing token calls for, then the query itself. */
  function Rules(cfg: Config, s: State): (r: (Result<Answer>, State))
    ensures |r.1.script| <= |s.script|
    decreases |s.script|, 1
  {
    var (h, s1) := Prepare(cfg, s);
    if h.Err? then (Err(h.error), s1) else QueryRules(cfg, s1)
  }

  /** The full-status query once a token is at hand (lines 161-174): the
      query carries the session id as its padding; a lost reply counts a
      retry and, below the limit, is followed by a handshake that does not
      count its own losses and a new `getRules`. */
  function QueryRules(cfg: Config, s1: State): (r: (Result<Answer>, State))
    ensures |r.1.script| <= |s1.script|
    decreases |s1.script|, 0
  {
    var s2 := Send(cfg, s1, PACKET_TYPE_QUERY, cfg.idPacked);
    if s2.script == [] then (Err(Exhausted), s2)
    else match s2.script[0]
      case Fail =>
        var s3 := s2.(script := s2.script[1..], retries := s2.retries + 1);
        if s3.retries < cfg.maxRetries then
          var (h2, s4) := Handshake(cfg, s3, true);
          if h2.Err? then (Err(h2.error), s4) else Rules(cfg, s4)
        else (Err(NetworkError), s3)
      case Reply(data, _) =>
        (Ok(Answer(ReadSplit(data).payload, s2.ping)), s2.(script := s2.script[1..]))
  }

  // ================================================================ lemmas

  /** A bypassing handshake leaves the retry counter alone; any other one
      adds one for every lost reply it saw. */
  lemma {:induction false} HandshakeCountsFailures(cfg: Config, s: State, bypass: bool)
    ensures var r := Handshake(cfg, s, bypass);
            r.1.retries == s.retries + (if bypass then 0 else Failures(Consumed(s, r.1)))
    decreases |s.script|
  {
    var r := Handshake(cfg, s, bypass);
    if s.script != [] && s.script[0].Fail? {
      var s2 := AfterLoss(cfg, s, bypass);
      HandshakeLoss(cfg, s, bypass);
      if s2.retries < cfg.maxRetries {
        HandshakeCountsFailures(cfg, s2, bypass);
        ConsumedStep(s, s2, r.1);
      } else {
        ConsumedStep(s, s2, s2);
      }
    } else if s.script != [] {
      ConsumedStep(s, r.1, r.1);
    }
  }

  /** The state after a lost reply to a challenge request. */
  ghost function AfterLoss(cfg: Config, s: State, bypass: bool): (r: State)
    requires s.script != []
  {
    Send(cfg, s, PACKET_TYPE_CHALLENGE, []).(script := s.script[1..],
      retries := if bypass then s.retries else s.retries + 1)
  }

  /** After a lost reply a handshake starts again below the limit and
      fails with the network error at it. */
  lemma HandshakeLoss(cfg: Config, s: State, bypass: bool)
    requires s.script != [] && s.script[0].Fail?
    ensures var s2 := AfterLoss(cfg, s, bypass);
            && s2.script == s.script[1..]
            && s2.retries == s.retries + (if bypass then 0 else 1)
            && Handshake(cfg, s, bypass)
               == if s2.retries < cfg.maxRetries then Handshake(cfg, s2, bypass) else (Err(NetworkError), s2)
  {
  }

  /** Every outcome a handshake consumed before the last one was a lost
      reply, and a failed handshake consumed nothing but lost replies
      (counting the losses among them). */
  lemma {:induction false} HandshakeSkipsFailures(cfg: Config, s: State, bypass: bool)
    ensures var r := Handshake(cfg, s, bypass);
            var used := Consumed(s, r.1);
            && Failures(used) >= |used| - 1
            && (r.0.Err? ==> Failures(used) == |used|)
    decreases |s.script|
  {
    var r := Handshake(cfg, s, bypass);
    if s.script != [] && s.script[0].Fail? {
      var s2 := AfterLoss(cfg, s, bypass);
      HandshakeLoss(cfg, s, bypass);
      if s2.retries < cfg.maxRetries {
        HandshakeSkipsFailures(cfg, s2, bypass);
        ConsumedStep(s, s2, r.1);
      } else {
        ConsumedStep(s, s2, s2);
      }
    } else if s.script != [] {
      ConsumedStep(s, r.1, r.1);
    }
  }

  /** `after` was reached by consuming a prefix of `script` whose last
      outcome is a reply, and holds that reply's challenge token and
      round-trip time. */
  ghost predicate EndsAtReply(script: seq<Outcome>, after: State)
  {
    && |after.script| < |script|
    && var o := script[|script| - |after.script| - 1];
       && o.Reply?
       && after.challenge == Some(ChallengeOf(o.data))
       && after.challengePacked == PackN(ChallengeOf(o.data))
       && after.ping == Some(o.rtt)
  }

  /** A successful handshake ends at a reply and takes the reply's
      challenge token and round-trip time. */
  lemma {:induction false} HandshakeSuccess(cfg: Config, s: State, bypass: bool)
    ensures var r := Handshake(cfg, s, bypass);
            r.0.Ok? ==> EndsAtReply(s.script, r.1)
    decreases |s.script|
  {
    var r := Handshake(cfg, s, bypass);
    if s.script != [] && s.script[0].Fail? {
      var s2 := Send(cfg, s, PACKET_TYPE_CHALLENGE, []).(script := s.script[1..],
                retries := if bypass then s.retries else s.retries + 1);
      if s2.retries < cfg.maxRetries {
        assert r == Handshake(cfg, s2, bypass);
        HandshakeSuccess(cfg, s2, bypass);
        if r.0.Ok? {
          EndsAtReplyLater(s.script, r.1);
        }
      }
    }
  }

  /** Ending at a reply of the rest of a script is ending at a reply of
      the whole script. */
  lemma EndsAtReplyLater(script: seq<Outcome>, after: State)
    requires script != [] && EndsAtReply(script[1..], after)
    ensures EndsAtReply(script, after)
  {
    var k := |script| - 1 - |after.script| - 1;
    assert script[k + 1] == script[1..][k];
  }

  /** A failed handshake changes neither the challenge nor the ping. */
  lemma {:induction false} HandshakeFailure(cfg: Config, s: State, bypass: bool)
    ensures var r := Handshake(cfg, s, bypass);
            r.0.Err? ==>
              r.1.challenge == s.challenge && r.1.challengePacked == s.challengePacked && r.1.ping == s.ping
    decreases |s.script|
  {
    if s.script != [] && s.script[0].Fail? {
      var s2 := Send(cfg, s, PACKET_TYPE_CHALLENGE, []).(script := s.script[1..],
                retries := if bypass then s.retries else s.retries + 1);
      if s2.retries < cfg.maxRetries {
        HandshakeFailure(cfg, s2, bypass);
      }
    }
  }

  /** A handshake that fails with the network error leaves the counter at
      or above the limit: below the limit it always tries again. */
  lemma {:induction false} HandshakeGivesUpAtLimit(cfg: Config, s: State, bypass: bool)
    ensures var r := Handshake(cfg, s, bypass);
            r.0 == Err(NetworkError) ==> r.1.retries >= cfg.maxRetries
    decreases |s.script|
  {
    if s.script != [] && s.script[0].Fail? {
      var s2 := Send(cfg, s, PACKET_TYPE_CHALLENGE, []).(script := s.script[1..],
                retries := if bypass then s.retries else s.retries + 1);
      if s2.retries < cfg.maxRetries {
        HandshakeGivesUpAtLimit(cfg, s2, bypass);
      }
    }
  }

  /** A script of `n` lost replies. */
  function Silence(n: nat): (r: seq<Outcome>)
    ensures |r| == n && forall i :: 0 <= i < n ==> r[i] == Fail
  {
    if n == 0 then [] else [Fail] + Silence(n - 1)
  }

  /** Against a server that never answers, a counting handshake sends
      exactly `max(1, maxRetries - retries)` challenge requests and then
      fails with the network error, with the counter at the limit (or one
      above the start when it already was at the limit). */
  lemma {:induction false} HandshakeDeadServer(cfg: Config, s: State, rest: seq<Outcome>)
    requires s.script == Silence(Attempts(cfg, s)) + rest
    ensures var r := Handshake(cfg, s, false);
            && r.0 == Err(NetworkError)
            && r.1.script == rest
            && |r.1.sent| == |s.sent| + Attempts(cfg, s)
            && r.1.retries == if s.retries + 1 < cfg.maxRetries then cfg.maxRetries else s.retries + 1
    decreases Attempts(cfg, s)
  {
    var s2 := Send(cfg, s, PACKET_TYPE_CHALLENGE, []).(script := s.script[1..], retries := s.retries + 1);
    if s2.retries < cfg.maxRetries {
      assert s2.script == Silence(Attempts(cfg, s2)) + rest;
      HandshakeDeadServer(cfg, s2, rest);
    } else {
      assert s2.script == rest;
    }
  }

  /** The number of attempts a counting handshake makes against a silent
      server. */
  function Attempts(cfg: Config, s: State): (n: nat)
    ensures n >= 1
  {
    if s.retries + 1 < cfg.maxRetries then cfg.maxRetries - s.retries else 1
  }

  /** Against a server that never answers, a bypassing handshake started
      below the limit never gives up: it consumes the whole script, sending
      one challenge request per lost reply and one more, and only the end
      of the script stops it. */
  lemma {:induction false} BypassHandshakeNeverGivesUp(cfg: Config, s: State)
    requires s.retries < cfg.maxRetries
    requires forall i :: 0 <= i < |s.script| ==> s.script[i] == Fail
    ensures var r := Handshake(cfg, s, true);
            r.0 == Err(Exhausted) && r.1.script == [] && |r.1.sent| == |s.sent| + |s.script| + 1
            && r.1.retries == s.retries
    decreases |s.script|
  {
    if s.script != [] {
      var s2 := Send(cfg, s, PACKET_TYPE_CHALLENGE, []).(script := s.script[1..]);
      BypassHandshakeNeverGivesUp(cfg, s2);
    }
  }

  /** The handshake, the status query and the full-status query keep the
      packed fields consistent. */
  lemma {:induction false} HandshakeKeepsValid(cfg: Config, s: State, bypass: bool)
    requires Valid(cfg, s)
    ensures Valid(cfg, Handshake(cfg, s, bypass).1)
    decreases |s.script|
  {
    if s.script != [] && s.script[0].Fail? {
      var s2 := Send(cfg, s, PACKET_TYPE_CHALLENGE, []).(script := s.script[1..],
                retries := if bypass then s.retries else s.retries + 1);
      if s2.retries < cfg.maxRetries {
        HandshakeKeepsValid(cfg, s2, bypass);
      }
    }
  }

  lemma {:induction false} StatusKeepsValid(cfg: Config, s: State)
    requires Valid(cfg, s)
    ensures Valid(cfg, Status(cfg, s).1)
    decreases |s.script|
  {
    if Empty(s.challenge) {
      HandshakeKeepsValid(cfg, s, false);
    }
    var (h, s1) := Prepare(cfg, s);
    if h.Ok? {
      var s2 := Send(cfg, s1, PACKET_TYPE_QUERY, []);
      if s2.script != [] && s2.script[0].Fail? {
        HandshakeKeepsValid(cfg, s2.(script := s2.script[1..]), false);
        var (h2, s3) := Handshake(cfg, s2.(script := s2.script[1..]), false);
        if h2.Ok? {
          StatusKeepsValid(cfg, s3);
        }
      }
    }
  }

  lemma {:induction false} RulesKeepsValid(cfg: Config, s: State)
    requires Valid(cfg, s)
    ensures Valid(cfg, Rules(cfg, s).1)
    decreases |s.script|, 1
  {
    if Empty(s.challenge) {
      HandshakeKeepsValid(cfg, s, false);
    }
    var (h, s1) := Prepare(cfg, s);
    if h.Ok? {
      QueryRulesKeepsValid(cfg, s1);
    }
  }

  /** The query half of `RulesKeepsValid`. */
  lemma {:induction false} QueryRulesKeepsValid(cfg: Config, s: State)
    requires Valid(cfg, s)
    ensures Valid(cfg, QueryRules(cfg, s).1)
    decreases |s.script|, 0
  {
    var s2 := Send(cfg, s, PACKET_TYPE_QUERY, cfg.idPacked);
    if s2.script != [] && s2.script[0].Fail? {
      var s3 := s2.(script := s2.script[1..], retries := s2.retries + 1);
      if s3.retries < cfg.maxRetries {
        HandshakeKeepsValid(cfg, s3, true);
        var (h2, s4) := Handshake(cfg, s3, true);
        if h2.Ok? {
          RulesKeepsValid(cfg, s4);
        }
      }
    }
  }

  /** Every datagram a client sends is a well-formed request: a challenge
      request with no payload, a status query with no payload, or a
      full-status query whose payload is the packed session id; each
      carries the session id. */
  ghost predicate WellFormed(cfg: Config, p: seq<Byte>)
  {
    var f := ParseRequest(p);
    && f.Some?
    && f.value.id == cfg.id % WORD
    && ((f.value.kind == PACKET_TYPE_CHALLENGE && f.value.payload == [])
        || (f.value.kind == PACKET_TYPE_QUERY && (f.value.payload == [] || f.value.payload == PackN(cfg.id))))
  }

  ghost predicate AllWellFormed(cfg: Config, s: State)
  {
    forall i :: 0 <= i < |s.sent| ==> WellFormed(cfg, s.sent[i])
  }

  lemma SendWellFormed(cfg: Config, s: State, kind: Byte, data: seq<Byte>)
    requires Valid(cfg, s) && AllWellFormed(cfg, s)
    requires (kind == PACKET_TYPE_CHALLENGE && data == []) ||
             (kind == PACKET_TYPE_QUERY && (data == [] || data == cfg.idPacked))
    ensures AllWellFormed(cfg, Send(cfg, s, kind, data))
  {
    var c := if s.challenge.Some? then s.challenge.value else 0;
    RequestLayout(kind, cfg.id, c, data);
    var t := Send(cfg, s, kind, data);
    assert t.sent[|s.sent|] == Request(kind, PackN(cfg.id), PackN(c), data);
  }

  lemma {:induction false} HandshakeSendsWellFormed(cfg: Config, s: State, bypass: bool)
    requires Valid(cfg, s) && AllWellFormed(cfg, s)
    ensures AllWellFormed(cfg, Handshake(cfg, s, bypass).1)
    decreases |s.script|
  {
    SendWellFormed(cfg, s, PACKET_TYPE_CHALLENGE, []);
    if s.script != [] && s.script[0].Fail? {
      var s2 := Send(cfg, s, PACKET_TYPE_CHALLENGE, []).(script := s.script[1..],
                retries := if bypass then s.retries else s.retries + 1);
      if s2.retries < cfg.maxRetries {
        HandshakeSendsWellFormed(cfg, s2, bypass);
      }
    }
  }

  lemma {:induction false} StatusSendsWellFormed(cfg: Config, s: State)
    requires Valid(cfg, s) && AllWellFormed(cfg, s)
    ensures AllWellFormed(cfg, Status(cfg, s).1)
    decreases |s.script|
  {
    if Empty(s.challenge) {
      HandshakeKeepsValid(cfg, s, false);
      HandshakeSendsWellFormed(cfg, s, false);
    }
    var (h, s1) := Prepare(cfg, s);
    if h.Ok? {
      SendWellFormed(cfg, s1, PACKET_TYPE_QUERY, []);
      var s2 := Send(cfg, s1, PACKET_TYPE_QUERY, []);
      if s2.script != [] && s2.script[0].Fail? {
        HandshakeKeepsValid(cfg, s2.(script := s2.script[1..]), false);
        HandshakeSendsWellFormed(cfg, s2.(script := s2.script[1..]), false);
        var (h2, s3) := Handshake(cfg, s2.(script := s2.script[1..]), false);
        if h2.Ok? {
          StatusSendsWellFormed(cfg, s3);
        }
      }
    }
  }

  /** The opening handshake keeps the state consistent and sends only
      well-formed challenge requests. */
  lemma PrepareSendsWellFormed(cfg: Config, s: State)
    requires Valid(cfg, s) && AllWellFormed(cfg, s)
    ensures Valid(cfg, Prepare(cfg, s).1) && AllWellFormed(cfg, Prepare(cfg, s).1)
  {
    if Empty(s.challenge) {
      HandshakeKeepsValid(cfg, s, false);
      HandshakeSendsWellFormed(cfg, s, false);
    }
  }

  lemma {:induction false} RulesSendsWellFormed(cfg: Config, s: State)
    requires Valid(cfg, s) && AllWellFormed(cfg, s)
    ensures AllWellFormed(cfg, Rules(cfg, s).1)
    decreases |s.script|, 1
  {
    PrepareSendsWellFormed(cfg, s);
    var p := Prepare(cfg, s);
    RulesState(cfg, s);
    if p.0.Ok? {
      QueryRulesSendsWellFormed(cfg, p.1);
    }
  }

  /** The state `getRules` leaves: that of its query, or that of a failed
      handshake. */
  lemma RulesState(cfg: Config, s: State)
    ensures var p := Prepare(cfg, s);
            Rules(cfg, s).1 == if p.0.Ok? then QueryRules(cfg, p.1).1 else p.1
  {
  }

  /** The query half of `RulesSendsWellFormed`: the query carries the
      packed session id. */
  lemma {:induction false} QueryRulesSendsWellFormed(cfg: Config, s: State)
    requires Valid(cfg, s) && AllWellFormed(cfg, s)
    ensures AllWellFormed(cfg, QueryRules(cfg, s).1)
    decreases |s.script|, 0
  {
    SendWellFormed(cfg, s, PACKET_TYPE_QUERY, cfg.idPacked);
    var s2 := Send(cfg, s, PACKET_TYPE_QUERY, cfg.idPacked);
    if s2.script != [] && s2.script[0].Fail? {
      var s3 := s2.(script := s2.script[1..], retries := s2.retries + 1);
      assert AllWellFormed(cfg, s3);
      if s3.retries < cfg.maxRetries {
        HandshakeKeepsValid(cfg, s3, true);
        HandshakeSendsWellFormed(cfg, s3, true);
        var (h2, s4) := Handshake(cfg, s3, true);
        if h2.Ok? {
          RulesSendsWellFormed(cfg, s4);
        }
      }
    }
  }

  /** The retry counter never goes down: the queries only ever add to it
      (lines 98 and 166). */
  lemma {:induction false} StatusKeepsRetries(cfg: Config, s: State)
    ensures Status(cfg, s).1.retries >= s.retries
    decreases |s.script|
  {
    var (h, s1) := Prepare(cfg, s);
    if h.Ok? {
      var s2 := Send(cfg, s1, PACKET_TYPE_QUERY, []);
      if s2.script != [] && s2.script[0].Fail? {
        var (h2, s3) := Handshake(cfg, s2.(script := s2.script[1..]), false);
        if h2.Ok? {
          StatusKeepsRetries(cfg, s3);
        }
      }
    }
  }

  lemma {:induction false} RulesKeepsRetries(cfg: Config, s: State)
    ensures Rules(cfg, s).1.retries >= s.retries
    decreases |s.script|, 1
  {
    var (h, s1) := Prepare(cfg, s);
    if h.Ok? {
      QueryRulesKeepsRetries(cfg, s1);
    }
  }

  /** The query half of `RulesKeepsRetries`: a lost reply adds one. */
  lemma {:induction false} QueryRulesKeepsRetries(cfg: Config, s: State)
    ensures QueryRules(cfg, s).1.retries >= s.retries
    decreases |s.script|, 0
  {
    var s2 := Send(cfg, s, PACKET_TYPE_QUERY, cfg.idPacked);
    if s2.script != [] && s2.script[0].Fail? {
      var s3 := s2.(script := s2.script[1..], retries := s2.retries + 1);
      if s3.retries < cfg.maxRetries {
        var (h2, s4) := Handshake(cfg, s3, true);
        if h2.Ok? {
          RulesKeepsRetries(cfg, s4);
        }
      }
    }
  }

  /** With a known challenge token and an answering server, a status query
      is one datagram and one reply: no handshake, and the reply's payload
      with the ping of the last handshake. */
  lemma CachedStatus(cfg: Config, s: State, data: seq<Byte>, rtt: int, rest: seq<Outcome>)
    requires !Empty(s.challenge) && s.script == [Reply(data, rtt)] + rest
    ensures Status(cfg, s) == (Ok(Answer(ReadSplit(data).payload, s.ping)),
                               s.(script := rest, sent := s.sent + [Request(PACKET_TYPE_QUERY, cfg.idPacked, s.challengePacked, [])]))
  {
    assert s.script[1..] == rest;
  }

  /** The full-status counterpart of `CachedStatus`: with a known token and
      an answering server, one query carrying the packed session id and one
      reply. */
  lemma CachedRules(cfg: Config, s: State, data: seq<Byte>, rtt: int, rest: seq<Outcome>)
    requires !Empty(s.challenge) && s.script == [Reply(data, rtt)] + rest
    ensures Rules(cfg, s) == (Ok(Answer(ReadSplit(data).payload, s.ping)),
                              s.(script := rest, sent := s.sent + [Request(PACKET_TYPE_QUERY, cfg.idPacked, s.challengePacked, cfg.idPacked)]))
  {
    assert s.script[1..] == rest;
  }

  /** An answered handshake: the reply's token, its packing and its
      round-trip time are recorded. */
  lemma HandshakeAnswered(cfg: Config, s: State, bypass: bool, data: seq<Byte>, rtt: int, rest: seq<Outcome>)
    requires s.script == [Reply(data, rtt)] + rest
    ensures Handshake(cfg, s, bypass)
            == (Ok(()), s.(script := rest, ping := Some(rtt), challenge := Some(ChallengeOf(data)),
                           challengePacked := PackN(ChallengeOf(data)),
                           sent := s.sent + [Request(PACKET_TYPE_CHALLENGE, cfg.idPacked, s.challengePacked, [])]))
  {
    assert s.script[1..] == rest;
  }

  /** Without a token, the opening handshake of a query is an answered
      handshake: the state it leaves holds the reply's token. */
  lemma PrepareAnswered(cfg: Config, s: State, data: seq<Byte>, rtt: int, rest: seq<Outcome>)
    requires Empty(s.challenge) && s.script == [Reply(data, rtt)] + rest
    ensures Prepare(cfg, s)
            == (Ok(()), s.(script := rest, ping := Some(rtt), challenge := Some(ChallengeOf(data)),
                           challengePacked := PackN(ChallengeOf(data)),
                           sent := s.sent + [Request(PACKET_TYPE_CHALLENGE, cfg.idPacked, s.challengePacked, [])]))
  {
    HandshakeAnswered(cfg, s, false, data, rtt, rest);
  }

  /** Once the opening handshake has left a token, a query goes on exactly
      as the same query started from the state that handshake left. */
  lemma QueriesAfterPrepare(cfg: Config, s: State)
    requires Prepare(cfg, s).0.Ok? && !Empty(Prepare(cfg, s).1.challenge)
    ensures Status(cfg, s) == Status(cfg, Prepare(cfg, s).1)
    ensures Rules(cfg, s) == Rules(cfg, Prepare(cfg, s).1)
  {
  }

  /** Once the opening handshake has left a token `g.challenge`, an
      answered status query sends one query carrying that token. */
  lemma StatusAfterPrepare(cfg: Config, s: State, g: State, data: seq<Byte>, rtt: int, rest: seq<Outcome>)
    requires Prepare(cfg, s) == (Ok(()), g) && !Empty(g.challenge)
    requires g.script == [Reply(data, rtt)] + rest
    ensures Status(cfg, s) == (Ok(Answer(ReadSplit(data).payload, g.ping)),
                               g.(script := rest, sent := g.sent + [Request(PACKET_TYPE_QUERY, cfg.idPacked, g.challengePacked, [])]))
  {
    QueriesAfterPrepare(cfg, s);
    CachedStatus(cfg, g, data, rtt, rest);
  }

  /** The full-status counterpart of `StatusAfterPrepare`. */
  lemma RulesAfterPrepare(cfg: Config, s: State, g: State, data: seq<Byte>, rtt: int, rest: seq<Outcome>)
    requires Prepare(cfg, s) == (Ok(()), g) && !Empty(g.challenge)
    requires g.script == [Reply(data, rtt)] + rest
    ensures Rules(cfg, s) == (Ok(Answer(ReadSplit(data).payload, g.ping)),
                              g.(script := rest, sent := g.sent + [Request(PACKET_TYPE_QUERY, cfg.idPacked, g.challengePacked, cfg.idPacked)]))
  {
    QueriesAfterPrepare(cfg, s);
    CachedRules(cfg, g, data, rtt, rest);
  }

  /** `PrepareAnswered` with the state it leaves named `g`. */
  lemma FreshPrepare(cfg: Config, s: State, h: seq<Byte>, t: int, rest1: seq<Outcome>, g: State)
    requires Empty(s.challenge) && s.script == [Reply(h, t)] + rest1
    requires g == s.(script := rest1, ping := Some(t), challenge := Some(ChallengeOf(h)),
                     challengePacked := PackN(ChallengeOf(h)),
                     sent := s.sent + [Request(PACKET_TYPE_CHALLENGE, cfg.idPacked, s.challengePacked, [])])
    ensures Prepare(cfg, s) == (Ok(()), g)
  {
    PrepareAnswered(cfg, s, h, t, rest1);
  }

  /** A status query without a token, against a server that answers:
      one challenge request, then one query carrying the token of the
      reply. */
  lemma FreshStatus(cfg: Config, s: State, h: seq<Byte>, t: int, q1: seq<Byte>, u1: int, more: seq<Outcome>)
    requires Empty(s.challenge) && ChallengeOf(h) != 0
    requires s.script == [Reply(h, t), Reply(q1, u1)] + more
    ensures Status(cfg, s)
            == (Ok(Answer(ReadSplit(q1).payload, Some(t))),
                s.(script := more, ping := Some(t), challenge := Some(ChallengeOf(h)),
                   challengePacked := PackN(ChallengeOf(h)),
                   sent := s.sent + [Request(PACKET_TYPE_CHALLENGE, cfg.idPacked, s.challengePacked, []),
                                     Request(PACKET_TYPE_QUERY, cfg.idPacked, PackN(ChallengeOf(h)), [])]))
  {
    var challenge := Request(PACKET_TYPE_CHALLENGE, cfg.idPacked, s.challengePacked, []);
    var query := Request(PACKET_TYPE_QUERY, cfg.idPacked, PackN(ChallengeOf(h)), []);
    var rest1 := [Reply(q1, u1)] + more;
    var g := s.(script := rest1, ping := Some(t), challenge := Some(ChallengeOf(h)),
                challengePacked := PackN(ChallengeOf(h)), sent := s.sent + [challenge]);
    var after := g.(script := more, sent := g.sent + [query]);
    FreshPrepare(cfg, s, h, t, rest1, g);
    StatusAfterPrepare(cfg, s, g, q1, u1, more);
    assert after.sent == s.sent + [challenge, query];
  }

  /** A full-status query without a token, against a server that answers:
      one challenge request, then one query carrying the token of the
      reply. */
  lemma FreshRules(cfg: Config, s: State, h: seq<Byte>, t: int, q1: seq<Byte>, u1: int, more: seq<Outcome>)
    requires Empty(s.challenge) && ChallengeOf(h) != 0
    requires s.script == [Reply(h, t), Reply(q1, u1)] + more
    ensures Rules(cfg, s)
            == (Ok(Answer(ReadSplit(q1).payload, Some(t))),
                s.(script := more, ping := Some(t), challenge := Some(ChallengeOf(h)),
                   challengePacked := PackN(ChallengeOf(h)),
                   sent := s.sent + [Request(PACKET_TYPE_CHALLENGE, cfg.idPacked, s.challengePacked, []),
                                     Request(PACKET_TYPE_QUERY, cfg.idPacked, PackN(ChallengeOf(h)), cfg.idPacked)]))
  {
    var challenge := Request(PACKET_TYPE_CHALLENGE, cfg.idPacked, s.challengePacked, []);
    var query := Request(PACKET_TYPE_QUERY, cfg.idPacked, PackN(ChallengeOf(h)), cfg.idPacked);
    var rest1 := [Reply(q1, u1)] + more;
    var g := s.(script := rest1, ping := Some(t), challenge := Some(ChallengeOf(h)),
                challengePacked := PackN(ChallengeOf(h)), sent := s.sent + [challenge]);
    var after := g.(script := more, sent := g.sent + [query]);
    FreshPrepare(cfg, s, h, t, rest1, g);
    RulesAfterPrepare(cfg, s, g, q1, u1, more);
    assert after.sent == s.sent + [challenge, query];
  }

  /** Regrouping a script of three outcomes and a tail. */
  lemma ThreeThenRest(a: Outcome, b: Outcome, c: Outcome, rest: seq<Outcome>)
    ensures [a, b, c] + rest == [a, b] + ([c] + rest)
  {
    assert ([a, b, c] + rest)[2..] == [c] + rest;
  }

  /** Regrouping the datagrams sent: two and then one more. */
  lemma TwoThenOne(sent: seq<seq<Byte>>, x: seq<Byte>, y: seq<Byte>, z: seq<Byte>)
    ensures sent + [x, y] + [z] == sent + [x, y, z]
  {
  }

  /** The token is obtained once and then reused: two status queries that
      start without a token and are answered make one handshake, whose
      token both queries carry. */
  lemma TwoStatusQueries(cfg: Config, s: State, h: seq<Byte>, t: int,
                         q1: seq<Byte>, u1: int, q2: seq<Byte>, u2: int, rest: seq<Outcome>)
    requires Empty(s.challenge) && ChallengeOf(h) != 0
    requires s.script == [Reply(h, t), Reply(q1, u1), Reply(q2, u2)] + rest
    ensures var (r1, s1) := Status(cfg, s);
            var (r2, s2) := Status(cfg, s1);
            && r1 == Ok(Answer(ReadSplit(q1).payload, Some(t)))
            && r2 == Ok(Answer(ReadSplit(q2).payload, Some(t)))
            && s2.script == rest && s2.challenge == Some(ChallengeOf(h)) && s2.retries == s.retries
            && s2.sent == s.sent + [Request(PACKET_TYPE_CHALLENGE, cfg.idPacked, s.challengePacked, []),
                                    Request(PACKET_TYPE_QUERY, cfg.idPacked, PackN(ChallengeOf(h)), []),
                                    Request(PACKET_TYPE_QUERY, cfg.idPacked, PackN(ChallengeOf(h)), [])]
  {
    var challenge := Request(PACKET_TYPE_CHALLENGE, cfg.idPacked, s.challengePacked, []);
    var query := Request(PACKET_TYPE_QUERY, cfg.idPacked, PackN(ChallengeOf(h)), []);
    var more := [Reply(q2, u2)] + rest;
    var s1 := s.(script := more, ping := Some(t), challenge := Some(ChallengeOf(h)),
                 challengePacked := PackN(ChallengeOf(h)), sent := s.sent + [challenge, query]);
    assert s.script == [Reply(h, t), Reply(q1, u1)] + more by {
      ThreeThenRest(Reply(h, t), Reply(q1, u1), Reply(q2, u2), rest);
    }
    assert Status(cfg, s) == (Ok(Answer(ReadSplit(q1).payload, Some(t))), s1) by {
      FreshStatus(cfg, s, h, t, q1, u1, more);
    }
    assert Status(cfg, s1) == (Ok(Answer(ReadSplit(q2).payload, Some(t))),
                            s1.(script := rest, sent := s1.sent + [query])) by {
      CachedStatus(cfg, s1, q2, u2, rest);
    }
    TwoThenOne(s.sent, challenge, query, query);
  }

  /** The full-status counterpart of `TwoStatusQueries`. */
  lemma TwoRulesQueries(cfg: Config, s: State, h: seq<Byte>, t: int,
                        q1: seq<Byte>, u1: int, q2: seq<Byte>, u2: int, rest: seq<Outcome>)
    requires Empty(s.challenge) && ChallengeOf(h) != 0
    requires s.script == [Reply(h, t), Reply(q1, u1), Reply(q2, u2)] + rest
    ensures var (r1, s1) := Rules(cfg, s);
            var (r2, s2) := Rules(cfg, s1);
            && r1 == Ok(Answer(ReadSplit(q1).payload, Some(t)))
            && r2 == Ok(Answer(ReadSplit(q2).payload, Some(t)))
            && s2.script == rest && s2.challenge == Some(ChallengeOf(h)) && s2.retries == s.retries
            && s2.sent == s.sent + [Request(PACKET_TYPE_CHALLENGE, cfg.idPacked, s.challengePacked, []),
                                    Request(PACKET_TYPE_QUERY, cfg.idPacked, PackN(ChallengeOf(h)), cfg.idPacked),
                                    Request(PACKET_TYPE_QUERY, cfg.idPacked, PackN(ChallengeOf(h)), cfg.idPacked)]
  {
    var challenge := Request(PACKET_TYPE_CHALLENGE, cfg.idPacked, s.challengePacked, []);
    var query := Request(PACKET_TYPE_QUERY, cfg.idPacked, PackN(ChallengeOf(h)), cfg.idPacked);
    var more := [Reply(q2, u2)] + rest;
    var s1 := s.(script := more, ping := Some(t), challenge := Some(ChallengeOf(h)),
                 challengePacked := PackN(ChallengeOf(h)), sent := s.sent + [challenge, query]);
    assert s.script == [Reply(h, t), Reply(q1, u1)] + more by {
      ThreeThenRest(Reply(h, t), Reply(q1, u1), Reply(q2, u2), rest);
    }
    assert Rules(cfg, s) == (Ok(Answer(ReadSplit(q1).payload, Some(t))), s1) by {
      FreshRules(cfg, s, h, t, q1, u1, more);
    }
    assert Rules(cfg, s1) == (Ok(Answer(ReadSplit(q2).payload, Some(t))),
                            s1.(script := rest, sent := s1.sent + [query])) by {
      CachedRules(cfg, s1, q2, u2, rest);
    }
    TwoThenOne(s.sent, challenge, query, query);
  }


  /** Without a challenge token a query starts with a handshake: the first
      datagram sent is a challenge request. */
  lemma QueryStartsWithHandshake(cfg: Config, s: State)
    requires Empty(s.challenge)
    ensures |Status(cfg, s).1.sent| > |s.sent|
    ensures Status(cfg, s).1.sent[|s.sent|] == Request(PACKET_TYPE_CHALLENGE, cfg.idPacked, s.challengePacked, [])
    ensures |Rules(cfg, s).1.sent| > |s.sent|
    ensures Rules(cfg, s).1.sent[|s.sent|] == Request(PACKET_TYPE_CHALLENGE, cfg.idPacked, s.challengePacked, [])
  {
    var first := Request(PACKET_TYPE_CHALLENGE, cfg.idPacked, s.challengePacked, []);
    var h := Handshake(cfg, s, false);
    assert h.1.sent[..|s.sent| + 1] == s.sent + [first] by {
      HandshakeFirstSend(cfg, s, false);
    }
    StatusExtendsSent(cfg, s);
    RulesExtendsSent(cfg, s);
    assert Status(cfg, s).1.sent[..|h.1.sent|][|s.sent|] == h.1.sent[|s.sent|];
    assert Rules(cfg, s).1.sent[..|h.1.sent|][|s.sent|] == h.1.sent[|s.sent|];
    assert h.1.sent[|s.sent|] == h.1.sent[..|s.sent| + 1][|s.sent|];
  }

  /** With a challenge token a query starts without a handshake: the first
      datagram sent is the query itself, carrying the cached token. */
  lemma QueryWithCachedToken(cfg: Config, s: State)
    requires !Empty(s.challenge)
    ensures |Status(cfg, s).1.sent| > |s.sent|
    ensures Status(cfg, s).1.sent[|s.sent|] == Request(PACKET_TYPE_QUERY, cfg.idPacked, s.challengePacked, [])
    ensures |Rules(cfg, s).1.sent| > |s.sent|
    ensures Rules(cfg, s).1.sent[|s.sent|] == Request(PACKET_TYPE_QUERY, cfg.idPacked, s.challengePacked, cfg.idPacked)
  {
    StatusSendsQueryFirst(cfg, s);
    var q := Send(cfg, s, PACKET_TYPE_QUERY, cfg.idPacked);
    assert Extends(QueryRules(cfg, s).1.sent, q.sent) by {
      QueryRulesExtendsQuery(cfg, s);
    }
    assert Rules(cfg, s).1.sent[..|q.sent|][|s.sent|] == q.sent[|s.sent|];
  }

  /** With a token, the status query's datagrams start with the query. */
  lemma StatusSendsQueryFirst(cfg: Config, s: State)
    requires !Empty(s.challenge)
    ensures |Status(cfg, s).1.sent| > |s.sent|
    ensures Status(cfg, s).1.sent[|s.sent|] == Request(PACKET_TYPE_QUERY, cfg.idPacked, s.challengePacked, [])
  {
    var s2 := Send(cfg, s, PACKET_TYPE_QUERY, []);
    StatusExtendsQuery(cfg, s);
    assert Status(cfg, s).1.sent[..|s2.sent|][|s.sent|] == s2.sent[|s.sent|];
  }

  lemma StatusExtendsQuery(cfg: Config, s: State)
    requires !Empty(s.challenge)
    ensures Extends(Status(cfg, s).1.sent, Send(cfg, s, PACKET_TYPE_QUERY, []).sent)
  {
    assert Prepare(cfg, s) == (Ok(()), s);
    var s2 := Send(cfg, s, PACKET_TYPE_QUERY, []);
    if s2.script != [] && s2.script[0].Fail? {
      StatusStep(cfg, s, s2);
      StatusExtendsSentAfterLoss(cfg, s2);
    }
  }

  /** The full-status query's datagrams start with the query itself. */
  lemma QueryRulesExtendsQuery(cfg: Config, s: State)
    ensures Extends(QueryRules(cfg, s).1.sent, Send(cfg, s, PACKET_TYPE_QUERY, cfg.idPacked).sent)
  {
    var s2 := Send(cfg, s, PACKET_TYPE_QUERY, cfg.idPacked);
    if s2.script != [] && s2.script[0].Fail? {
      var s3 := AfterQueryLoss(cfg, s);
      QueryRulesLoss(cfg, s);
      if s3.retries < cfg.maxRetries {
        var s4 := Handshake(cfg, s3, true).1;
        RulesExtendsSent(cfg, s4);
        ExtendsTrans(Rules(cfg, s4).1.sent, Prepare(cfg, s4).1.sent, s4.sent);
        ExtendsTrans(Rules(cfg, s4).1.sent, s4.sent, s2.sent);
      }
    }
  }

  /** The state after the full-status query's reply was lost: one more
      retry counted. */
  ghost function AfterQueryLoss(cfg: Config, s: State): (r: State)
    requires s.script != []
  {
    Send(cfg, s, PACKET_TYPE_QUERY, cfg.idPacked).(script := s.script[1..], retries := s.retries + 1)
  }

  /** After a lost reply the full-status query ends with the network error
      at the limit; below it, with a failed bypassing handshake or with a
      new full-status query. */
  lemma QueryRulesLoss(cfg: Config, s: State)
    requires s.script != [] && s.script[0].Fail?
    ensures var s3 := AfterQueryLoss(cfg, s);
            && s3.sent == Send(cfg, s, PACKET_TYPE_QUERY, cfg.idPacked).sent
            && QueryRules(cfg, s)
               == if s3.retries >= cfg.maxRetries then (Err(NetworkError), s3)
                  else if Handshake(cfg, s3, true).0.Err? then
                    (Err(Handshake(cfg, s3, true).0.error), Handshake(cfg, s3, true).1)
                  else Rules(cfg, Handshake(cfg, s3, true).1)
  {
  }



  /** The first datagram of a handshake is a challenge request carrying
      the token known when it started. */
  lemma HandshakeFirstSend(cfg: Config, s: State, bypass: bool)
    ensures var h := Handshake(cfg, s, bypass);
            h.1.sent[..|s.sent| + 1] == s.sent + [Request(PACKET_TYPE_CHALLENGE, cfg.idPacked, s.challengePacked, [])]
  {
    var s1 := Send(cfg, s, PACKET_TYPE_CHALLENGE, []);
    var h := Handshake(cfg, s, bypass);
    if s.script != [] && s.script[0].Fail? {
      var s2 := s1.(script := s.script[1..], retries := if bypass then s.retries else s.retries + 1);
      if s2.retries < cfg.maxRetries {
        var h2 := Handshake(cfg, s2, bypass);
        assert h.1.sent[..|s1.sent|] == s1.sent;
      }
    }
  }

  /** `a` starts with `b`. */
  ghost predicate Extends(a: seq<seq<Byte>>, b: seq<seq<Byte>>)
  {
    |a| >= |b| && a[..|b|] == b
  }

  lemma ExtendsTrans(a: seq<seq<Byte>>, b: seq<seq<Byte>>, c: seq<seq<Byte>>)
    requires Extends(a, b) && Extends(b, c)
    ensures Extends(a, c)
  {
    assert a[..|c|] == a[..|b|][..|c|];
  }

  /** The queries only append to the datagrams sent, after those of the
      handshake they start with. */
  lemma {:induction false} StatusExtendsSent(cfg: Config, s: State)
    ensures Extends(Status(cfg, s).1.sent, Prepare(cfg, s).1.sent)
    decreases |s.script|, 1
  {
    var (h, s1) := Prepare(cfg, s);
    if h.Ok? {
      var s2 := Send(cfg, s1, PACKET_TYPE_QUERY, []);
      assert Extends(s2.sent, s1.sent);
      if s2.script != [] && s2.script[0].Fail? {
        StatusStep(cfg, s, s2);
        StatusExtendsSentAfterLoss(cfg, s2);
        ExtendsTrans(Status(cfg, s).1.sent, s2.sent, s1.sent);
      }
    }
  }

  /** What is left of a status query once its query `s2` was sent and
      lost: a counting handshake and, when it is answered, a new query. */
  ghost function AfterLostStatus(cfg: Config, s2: State): (r: (Result<Answer>, State))
    requires s2.script != []
  {
    var h := Handshake(cfg, s2.(script := s2.script[1..]), false);
    if h.0.Err? then (Err(h.0.error), h.1) else Status(cfg, h.1)
  }

  /** One round of a status query whose query was lost: the handshake that
      follows, then, when it is answered, a new status query. */
  lemma StatusStep(cfg: Config, s: State, s2: State)
    requires Prepare(cfg, s).0.Ok?
    requires s2 == Send(cfg, Prepare(cfg, s).1, PACKET_TYPE_QUERY, []) && s2.script != [] && s2.script[0].Fail?
    ensures Status(cfg, s) == AfterLostStatus(cfg, s2)
  {
  }

  /** The lost-query branch of `StatusExtendsSent`. */
  lemma {:induction false} StatusExtendsSentAfterLoss(cfg: Config, s2: State)
    requires s2.script != []
    ensures Extends(AfterLostStatus(cfg, s2).1.sent, s2.sent)
    decreases |s2.script|, 0
  {
    var h := Handshake(cfg, s2.(script := s2.script[1..]), false);
    var s3 := h.1;
    assert Extends(s3.sent, s2.sent);
    if h.0.Ok? {
      var final := Status(cfg, s3).1.sent;
      StatusExtendsSent(cfg, s3);
      ExtendsTrans(final, Prepare(cfg, s3).1.sent, s3.sent);
      ExtendsTrans(final, s3.sent, s2.sent);
    }
  }

  lemma {:induction false} RulesExtendsSent(cfg: Config, s: State)
    ensures Extends(Rules(cfg, s).1.sent, Prepare(cfg, s).1.sent)
    decreases |s.script|, 1
  {
    var (h, s1) := Prepare(cfg, s);
    if h.Ok? {
      QueryRulesExtendsSent(cfg, s1);
    }
  }

  /** The query half of `RulesExtendsSent`. */
  lemma {:induction false} QueryRulesExtendsSent(cfg: Config, s: State)
    ensures Extends(QueryRules(cfg, s).1.sent, s.sent)
    decreases |s.script|, 0
  {
    var s2 := Send(cfg, s, PACKET_TYPE_QUERY, cfg.idPacked);
    assert Extends(s2.sent, s.sent);
    if s2.script != [] && s2.script[0].Fail? {
      var s3 := s2.(script := s2.script[1..], retries := s2.retries + 1);
      if s3.retries < cfg.maxRetries {
        var (h2, s4) := Handshake(cfg, s3, true);
        if h2.Ok? {
          RulesExtendsSent(cfg, s4);
          var final := Rules(cfg, s4).1.sent;
          ExtendsTrans(final, Prepare(cfg, s4).1.sent, s4.sent);
          ExtendsTrans(final, s4.sent, s3.sent);
          ExtendsTrans(final, s3.sent, s.sent);
        }
      }
    }
  }

  /** A failed full-status query at the retry limit fails with the network
      error, with no further handshake. */
  lemma RulesGivesUp(cfg: Config, s: State, rest: seq<Outcome>)
    requires !Empty(s.challenge) && s.script == [Fail] + rest && s.retries + 1 >= cfg.maxRetries
    ensures Rules(cfg, s).0 == Err(NetworkError)
    ensures Rules(cfg, s).1 == s.(script := rest, retries := s.retries + 1,
                                  sent := s.sent + [Request(PACKET_TYPE_QUERY, cfg.idPacked, s.challengePacked, cfg.idPacked)])
  {
    assert s.script[1..] == rest;
  }

  /** Once a challenge token is cached, a full-status query against a
      server that stopped answering never gives up while below the limit:
      its bypassing handshake keeps sending challenge requests until the
      script ends. */
  lemma RulesDeadServer(cfg: Config, s: State)
    requires !Empty(s.challenge) && s.retries + 1 < cfg.maxRetries
    requires |s.script| >= 1 && forall i :: 0 <= i < |s.script| ==> s.script[i] == Fail
    ensures Rules(cfg, s).0 == Err(Exhausted)
    ensures Rules(cfg, s).1.script == []
    ensures Rules(cfg, s).1.retries == s.retries + 1
  {
    var s2 := Send(cfg, s, PACKET_TYPE_QUERY, cfg.idPacked);
    var s3 := s2.(script := s2.script[1..], retries := s2.retries + 1);
    BypassHandshakeNeverGivesUp(cfg, s3);
  }

  /** A script in which each query is lost and each handshake answered. */
  function LostQueries(n: nat, data: seq<Byte>, rtt: int): (r: seq<Outcome>)
    ensures |r| == 2 * n
  {
    if n == 0 then [] else [Fail, Reply(data, rtt)] + LostQueries(n - 1, data, rtt)
  }

  /** A status query counts no retry for a lost query: as long as the
      handshakes in between are answered with a non-zero token it keeps
      querying, whatever the limit, until the script ends. */
  lemma {:induction false} StatusOutlastsLostQueries(cfg: Config, s: State, n: nat, data: seq<Byte>, rtt: int)
    requires !Empty(s.challenge) && ChallengeOf(data) != 0
    requires s.script == LostQueries(n, data, rtt)
    ensures Status(cfg, s).0 == Err(Exhausted)
    ensures Status(cfg, s).1.script == [] && Status(cfg, s).1.retries == s.retries
    decreases n, 1
  {
    if n == 0 {
      StatusNothingLeft(cfg, s);
    } else {
      StatusOutlastsLostQuery(cfg, s, n, data, rtt, LostQueries(n - 1, data, rtt));
    }
  }

  /** The step of `StatusOutlastsLostQueries` for a script that starts
      with a lost query. */
  lemma {:induction false} StatusOutlastsLostQuery(cfg: Config, s: State, n: nat, data: seq<Byte>, rtt: int, rest: seq<Outcome>)
    requires !Empty(s.challenge) && ChallengeOf(data) != 0 && n > 0
    requires rest == LostQueries(n - 1, data, rtt) && s.script == [Fail, Reply(data, rtt)] + rest
    ensures Status(cfg, s).0 == Err(Exhausted)
    ensures Status(cfg, s).1.script == [] && Status(cfg, s).1.retries == s.retries
    decreases n, 0
  {
    LostQueryRound(cfg, s, data, rtt, rest);
    StatusOutlastsLostQueries(cfg, AfterLostQuery(cfg, s), n - 1, data, rtt);
    LostQueryStatus(cfg, s, data, rtt, rest);
  }

  /** With a token cached and the script used up, a status query sends its
      request and finds no answer. */
  lemma StatusNothingLeft(cfg: Config, s: State)
    requires !Empty(s.challenge) && s.script == []
    ensures Status(cfg, s) == (Err(Exhausted), Send(cfg, s, PACKET_TYPE_QUERY, []))
    ensures Status(cfg, s).1.script == [] && Status(cfg, s).1.retries == s.retries
  {
  }

  /** The state after a lost status query and the handshake that follows. */
  ghost function AfterLostQuery(cfg: Config, s: State): (r: State)
    requires s.script != []
  {
    Handshake(cfg, Send(cfg, s, PACKET_TYPE_QUERY, []).(script := s.script[1..]), false).1
  }

  /** A lost query followed by an answered handshake leaves the rest of
      the script, the retries and a token. */
  lemma LostQueryRound(cfg: Config, s: State, data: seq<Byte>, rtt: int, rest: seq<Outcome>)
    requires ChallengeOf(data) != 0
    requires s.script == [Fail, Reply(data, rtt)] + rest
    ensures AfterLostQuery(cfg, s).script == rest && AfterLostQuery(cfg, s).retries == s.retries
    ensures !Empty(AfterLostQuery(cfg, s).challenge)
  {
    var s3 := Send(cfg, s, PACKET_TYPE_QUERY, []).(script := s.script[1..]);
    assert s3.script == [Reply(data, rtt)] + rest;
    assert s3.script[1..] == rest;
  }

  /** A status query whose query is lost goes on as the status query from
      the state after the handshake. */
  lemma LostQueryStatus(cfg: Config, s: State, data: seq<Byte>, rtt: int, rest: seq<Outcome>)
    requires !Empty(s.challenge) && ChallengeOf(data) != 0
    requires s.script == [Fail, Reply(data, rtt)] + rest
    ensures Status(cfg, s) == Status(cfg, AfterLostQuery(cfg, s))
  {
    LostQueryRound(cfg, s, data, rtt, rest);
  }
}
