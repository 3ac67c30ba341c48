/**
 * The two reply parsers of the query client: the basic status that
 * `getStatus` cuts out of a NUL-separated payload, and the full status
 * that `getRules` builds from a key/value block and a player block.
 */
module Responses {
  import opened Bytes
  import opened Strings
  import opened Parsers

  // =========================================================== basic status

  /** The array `getStatus` returns. A field that `list(...)` found no piece
      for is `null`, modelled as `None`. */
  datatype BasicStatus = BasicStatus(
    motd: Option<seq<Byte>>,
    gametype: Option<seq<Byte>>,
    mapName: Option<seq<Byte>>,
    numplayers: int,
    maxplayers: int,
    hostport: Option<nat>,
    hostname: seq<Byte>,
    ping: Option<int>)

  /** Piece `k` of a `list(...)` assignment, `null` when there is none. */
  function Item(parts: seq<seq<Byte>>, k: nat): (r: Option<seq<Byte>>)
  {
    if k < |parts| then Some(parts[k]) else None
  }

  /** A `null` used as a string reads as "". */
  function OrEmpty(o: Option<seq<Byte>>): (r: seq<Byte>)
  {
    if o.Some? then o.value else []
  }

  /** `unpack('v', substr(b, 0, 2))`: an unsigned little-endian 16-bit
      number, or nothing when fewer than two bytes are there. */
  function UnpackV(b: seq<Byte>): (r: Option<nat>)
    ensures r.Some? <==> |b| >= 2
    ensures r.Some? ==> r.value < 0x1_0000 && r.value % 0x100 == b[0] && r.value / 0x100 == b[1]
  {
    if |b| >= 2 then Some(b[0] + 0x100 * (b[1] as int)) else None
  }

  /** Unpacking the little-endian bytes of a port gives back the port. */
  lemma UnpackVOfPort(port: nat, rest: seq<Byte>)
    requires port < 0x1_0000
    ensures UnpackV([port % 0x100, port / 0x100] + rest) == Some(port)
  {
    var b := [port % 0x100, port / 0x100] + rest;
    assert b[0] == port % 0x100 && b[1] == port / 0x100;
  }

  /** The bytes `63 DD`, low byte first, are port 56675. */
  lemma UnpackVExample()
    ensures UnpackV([0x63, 0xDD]) == Some(56675)
  {
  }

  /** The basic-status split of `getStatus`: at most six NUL-separated
      pieces, the integer coercion of the player counts, the port in the
      first two bytes of the sixth piece and the host name in the rest of it
      minus its final byte. */
  function ParseBasic(payload: seq<Byte>, ping: Option<int>): (r: BasicStatus)
  {
    var parts := ExplodeLimit(payload, [NUL], 6);
    var rest := OrEmpty(Item(parts, 5));
    BasicStatus(
      Item(parts, 0), Item(parts, 1), Item(parts, 2),
      IntVal(OrEmpty(Item(parts, 3))), IntVal(OrEmpty(Item(parts, 4))),
      UnpackV(rest), ChopEnd(From(rest, 2), 1), ping)
  }

  /** A basic-status payload as a server lays it out: five NUL-terminated
      fields, the port little-endian, the NUL-terminated host name. */
  function BasicPayload(motd: seq<Byte>, gametype: seq<Byte>, mapName: seq<Byte>, numplayers: seq<Byte>,
                        maxplayers: seq<Byte>, port: nat, hostname: seq<Byte>): (r: seq<Byte>)
    requires port < 0x1_0000
  {
    motd + [NUL] + (gametype + [NUL] + (mapName + [NUL] + (numplayers + [NUL] + (maxplayers + [NUL]
      + ([port % 0x100, port / 0x100] + hostname + [NUL])))))
  }

  /** A piece of text that does not contain a NUL byte. */
  predicate NulFree(s: seq<Byte>)
  {
    forall k :: 0 <= k < |s| ==> s[k] != NUL
  }

  /** `getStatus` recovers every field a server put in a basic-status
      payload: the five texts, the counts as integers, the port (which is
      below 65536) and the host name, whatever bytes it holds. */
  lemma ParseBasicPayload(motd: seq<Byte>, gametype: seq<Byte>, mapName: seq<Byte>, numplayers: seq<Byte>,
                          maxplayers: seq<Byte>, port: nat, hostname: seq<Byte>, ping: Option<int>)
    requires NulFree(motd) && NulFree(gametype) && NulFree(mapName)
    requires NulFree(numplayers) && NulFree(maxplayers)
    requires port < 0x1_0000
    ensures ParseBasic(BasicPayload(motd, gametype, mapName, numplayers, maxplayers, port, hostname), ping)
         == BasicStatus(Some(motd), Some(gametype), Some(mapName), IntVal(numplayers), IntVal(maxplayers),
                        Some(port), hostname, ping)
  {
    var tail := [port % 0x100, port / 0x100] + hostname + [NUL];
    var payload := BasicPayload(motd, gametype, mapName, numplayers, maxplayers, port, hostname);
    BasicPieces(motd, gametype, mapName, numplayers, maxplayers, tail);
    var parts := ExplodeLimit(payload, [NUL], 6);
    assert Item(parts, 3) == Some(numplayers) && Item(parts, 4) == Some(maxplayers);
    assert OrEmpty(Item(parts, 5)) == tail;
    UnpackVOfPort(port, hostname + [NUL]);
    assert tail == [port % 0x100, port / 0x100] + (hostname + [NUL]);
    assert From(tail, 2) == hostname + [NUL];
    assert ChopEnd(From(tail, 2), 1) == hostname;
  }

  /** The six pieces of a basic-status payload. */
  lemma BasicPieces(motd: seq<Byte>, gametype: seq<Byte>, mapName: seq<Byte>, numplayers: seq<Byte>,
                    maxplayers: seq<Byte>, tail: seq<Byte>)
    requires NulFree(motd) && NulFree(gametype) && NulFree(mapName)
    requires NulFree(numplayers) && NulFree(maxplayers)
    ensures var parts := ExplodeLimit(motd + [NUL] + (gametype + [NUL] + (mapName + [NUL] + (numplayers + [NUL]
              + (maxplayers + [NUL] + tail)))), [NUL], 6);
            |parts| == 6 && parts[0] == motd && parts[1] == gametype && parts[2] == mapName
            && parts[3] == numplayers && parts[4] == maxplayers && parts[5] == tail
  {
    var s2 := mapName + [NUL] + (numplayers + [NUL] + (maxplayers + [NUL] + tail));
    var s1 := gametype + [NUL] + s2;
    LastPieces(mapName, numplayers, maxplayers, tail);
    ExplodeLimitFirstByte(gametype, NUL, s2, 5);
    ExplodeLimitFirstByte(motd, NUL, s1, 6);
  }

  /** The last four pieces of a basic-status payload. */
  lemma LastPieces(mapName: seq<Byte>, numplayers: seq<Byte>, maxplayers: seq<Byte>, tail: seq<Byte>)
    requires NulFree(mapName) && NulFree(numplayers) && NulFree(maxplayers)
    ensures var parts := ExplodeLimit(mapName + [NUL] + (numplayers + [NUL] + (maxplayers + [NUL] + tail)), [NUL], 4);
            |parts| == 4 && parts[0] == mapName && parts[1] == numplayers && parts[2] == maxplayers && parts[3] == tail
  {
    var s4 := maxplayers + [NUL] + tail;
    var s3 := numplayers + [NUL] + s4;
    ExplodeLimitFirstByte(maxplayers, NUL, tail, 2);
    ExplodeLimitFirstByte(numplayers, NUL, s4, 3);
    ExplodeLimitFirstByte(mapName, NUL, s3, 4);
  }

  /** Splitting with a limit at a first separator byte. */
  lemma ExplodeLimitFirstByte(a: seq<Byte>, b: Byte, rest: seq<Byte>, limit: nat)
    requires forall k :: 0 <= k < |a| ==> a[k] != b
    requires limit >= 2
    ensures var parts := ExplodeLimit(a + [b] + rest, [b], limit);
            var more := ExplodeLimit(rest, [b], limit - 1);
            |parts| == |more| + 1 && parts[0] == a && forall k :: 0 <= k < |more| ==> parts[k + 1] == more[k]
  {
    FirstByte(a, b, rest);
  }

  /** The player counts are coerced the way `intval` reads decimal numerals. */
  lemma ParseBasicCounts(motd: seq<Byte>, gametype: seq<Byte>, mapName: seq<Byte>, num: int, max: int,
                         port: nat, hostname: seq<Byte>, ping: Option<int>)
    requires NulFree(motd) && NulFree(gametype) && NulFree(mapName)
    requires port < 0x1_0000
    ensures var st := ParseBasic(BasicPayload(motd, gametype, mapName, Decimal(num), Decimal(max), port, hostname), ping);
            st.numplayers == num && st.maxplayers == max
  {
    DecimalIsNulFree(num);
    DecimalIsNulFree(max);
    ParseBasicPayload(motd, gametype, mapName, Decimal(num), Decimal(max), port, hostname, ping);
    IntValOfDecimal(num);
    IntValOfDecimal(max);
  }

  lemma DecimalIsNulFree(n: int)
    ensures NulFree(Decimal(n))
  {
    var ds := if n < 0 then Digits(-n) else Digits(n);
    assert forall k :: 0 <= k < |ds| ==> IsDigit(ds[k]);
  }

  // ============================================================ full status

  /** A value of the array `getRules` returns. */
  datatype Value = Text(text: seq<Byte>) | Number(number: int) | Names(names: seq<seq<Byte>>) | Null

  /** The full status: PHP's array from keys to values. */
  type Rules = map<seq<Byte>, Value>

  /** "splitnum", a NUL and two 16-bit fields in front of the key/value block. */
  const PADDING_LENGTH := 11

  /** The bytes between the key/value block and the player block. */
  const DELIMITER: seq<Byte> := [0, 0, 1] + Ascii("player_") + [0, 0]

  const HOSTNAME: seq<Byte> := [104, 111, 115, 116, 110, 97, 109, 101] // "hostname"
  const MOTD: seq<Byte> := [109, 111, 116, 100] // "motd"
  const RAW_MOTD: seq<Byte> := [114, 97, 119, 95, 109, 111, 116, 100] // "raw_motd"
  const PLAYERS: seq<Byte> := [112, 108, 97, 121, 101, 114, 115] // "players"
  const NUMPLAYERS: seq<Byte> := [110, 117, 109, 112, 108, 97, 121, 101, 114, 115] // "numplayers"
  const MAXPLAYERS: seq<Byte> := [109, 97, 120, 112, 108, 97, 121, 101, 114, 115] // "maxplayers"
  const HOSTPORT: seq<Byte> := [104, 111, 115, 116, 112, 111, 114, 116] // "hostport"
  const PLUGINS: seq<Byte> := [112, 108, 117, 103, 105, 110, 115] // "plugins"
  const RAW_PLUGINS: seq<Byte> := [114, 97, 119, 95, 112, 108, 117, 103, 105, 110, 115] // "raw_plugins"
  const SOFTWARE: seq<Byte> := [115, 111, 102, 116, 119, 97, 114, 101] // "software"
  const PING: seq<Byte> := [112, 105, 110, 103] // "ping"

  /** The keys `getRules` writes itself after pairing up the server's. */
  const DERIVED: set<seq<Byte>> := {PLAYERS, NUMPLAYERS, MAXPLAYERS, HOSTPORT, RAW_MOTD, MOTD,
                                    RAW_PLUGINS, SOFTWARE, PLUGINS, PING}

  /** Lines 176-177: drop the padding, split at the delimiter; a missing
      second piece is `null`, which reads as "". */
  function SplitBlocks(payload: seq<Byte>): (r: (seq<Byte>, seq<Byte>))
  {
    var parts := Explode(From(payload, PADDING_LENGTH), DELIMITER);
    (parts[0], if |parts| >= 2 then parts[1] else [])
  }

  /** Lines 179-181: a leading "hostname" is renamed "motd". */
  function RenameHostname(items: seq<Byte>): (r: seq<Byte>)
  {
    if |items| >= 8 && items[..8] == HOSTNAME then MOTD + items[8..] else items
  }

  /** The even-numbered tokens, `items[::2]`: the keys. */
  function PairKeys(tokens: seq<seq<Byte>>): (keys: seq<seq<Byte>>)
    ensures |keys| == (|tokens| + 1) / 2
    ensures forall k :: 0 <= k < |keys| ==> keys[k] == tokens[2 * k]
  {
    if |tokens| <= 1 then tokens else [tokens[0]] + PairKeys(tokens[2..])
  }

  /** The odd-numbered tokens, `items[1::2]`, as values; a last key without
      a value gets `null`. */
  function PairValues(tokens: seq<seq<Byte>>): (values: seq<Value>)
    ensures |values| == (|tokens| + 1) / 2
    ensures forall k :: 0 <= k < |values| ==>
              values[k] == if 2 * k + 1 < |tokens| then Text(tokens[2 * k + 1]) else Null
  {
    if tokens == [] then []
    else if |tokens| == 1 then [Null]
    else [Text(tokens[1])] + PairValues(tokens[2..])
  }

  /** The loop of lines 186-191, which walks the tokens with one shared
      index and appends a key and then a value at each step. */
  method PairUp(items: seq<seq<Byte>>) returns (keys: seq<seq<Byte>>, values: seq<Value>)
    ensures keys == PairKeys(items) && values == PairValues(items)
  {
    keys, values := [], [];
    var i := 0;
    while i < |items|
      invariant i % 2 == 0 && i <= |items| + 1
      invariant |keys| == |values| == i / 2
      invariant forall k :: 0 <= k < |keys| ==> keys[k] == items[2 * k]
      invariant forall k :: 0 <= k < |values| ==>
                  values[k] == if 2 * k + 1 < |items| then Text(items[2 * k + 1]) else Null
    {
      keys := keys + [items[i]];
      i := i + 1;
      values := values + [if i < |items| then Text(items[i]) else Null];
      i := i + 1;
    }
  }

  /** `array_combine(keys, values)`: a later duplicate key overwrites an
      earlier one. */
  function Combine(keys: seq<seq<Byte>>, values: seq<Value>): (m: Rules)
    requires |keys| == |values|
    ensures forall k :: k in m <==> k in keys
    ensures forall k :: k in m ==> m[k] in values
    decreases |keys|
  {
    if keys == [] then map[]
    else Combine(keys[..|keys| - 1], values[..|values| - 1])[keys[|keys| - 1] := values[|values| - 1]]
  }

  /** The value of a key is the one paired with its last occurrence. */
  lemma {:induction false} CombineLastWins(keys: seq<seq<Byte>>, values: seq<Value>, j: nat)
    requires |keys| == |values| && j < |keys|
    requires forall i :: j < i < |keys| ==> keys[i] != keys[j]
    ensures Combine(keys, values)[keys[j]] == values[j]
    decreases |keys|
  {
    if j < |keys| - 1 {
      CombineLastWins(keys[..|keys| - 1], values[..|values| - 1], j);
    }
  }

  /** PHP's truthiness of a value. */
  predicate Truthy(v: Value)
  {
    match v
    case Text(t) => Strings.Truthy(t)
    case Number(n) => n != 0
    case Names(l) => l != []
    case Null => false
  }

  /** `intval` of a value. */
  function IntOf(v: Value): (r: int)
  {
    match v
    case Text(t) => IntVal(t)
    case Number(n) => n
    case Names(l) => if l == [] then 0 else 1
    case Null => 0
  }

  /** Reading an entry of the array: `null` (with a notice) when the key
      is missing. */
  function Get(data: Rules, key: seq<Byte>): (r: Value)
  {
    if key in data then data[key] else Null
  }

  /** A value that is text or `null` used as a string. */
  function TextOf(v: Value): (r: seq<Byte>)
    requires v.Text? || v.Null?
  {
    if v.Text? then v.text else []
  }

  /** Every value is text or `null`, as the pairing produces them. */
  ghost predicate TextOrNull(data: Rules)
  {
    forall k :: k in data ==> data[k].Text? || data[k].Null?
  }

  /** The byte constants spell the keys the source writes. */
  lemma KeySpelling()
    ensures HOSTNAME == Ascii("hostname") && MOTD == Ascii("motd")
    ensures RAW_MOTD == Ascii("raw_motd") && PLAYERS == Ascii("players")
    ensures NUMPLAYERS == Ascii("numplayers") && MAXPLAYERS == Ascii("maxplayers")
    ensures HOSTPORT == Ascii("hostport") && PLUGINS == Ascii("plugins")
    ensures RAW_PLUGINS == Ascii("raw_plugins") && SOFTWARE == Ascii("software")
    ensures PING == Ascii("ping")
  {
    Spells(HOSTNAME, "hostname");
    Spells(MOTD, "motd");
    Spells(RAW_MOTD, "raw_motd");
    Spells(PLAYERS, "players");
    Spells(NUMPLAYERS, "numplayers");
    Spells(MAXPLAYERS, "maxplayers");
    Spells(HOSTPORT, "hostport");
    Spells(PLUGINS, "plugins");
    Spells(RAW_PLUGINS, "raw_plugins");
    Spells(SOFTWARE, "software");
    Spells(PING, "ping");
  }

  /** Bytes that agree with the code points of an ASCII text are its bytes. */
  lemma Spells(b: seq<Byte>, s: string)
    requires |b| == |s| && forall i :: 0 <= i < |s| ==> b[i] as int == s[i] as int
    ensures b == Ascii(s)
  {
    forall i | 0 <= i < |s| ensures b[i] == Ascii(s)[i] {
      assert s[i] as int < 256 by { assert b[i] as int < 256; }
    }
  }

  /** Lines 195-201: drop the block's last two bytes; a falsy rest ("" or
      "0") gives no players, any other rest is split at NUL bytes. */
  function PlayerList(block: seq<Byte>): (r: seq<seq<Byte>>)
  {
    var t := ChopEnd(block, 2);
    if Strings.Truthy(t) then Explode(t, [NUL]) else []
  }

  /** A count is replaced by its `intval` only when PHP finds it truthy,
      so "" and "0" stay text. */
  function CoerceValue(v: Value): (r: Value)
    ensures !Truthy(v) ==> r == v
    ensures Truthy(v) && v.Text? ==> r == Number(IntVal(v.text))
  {
    if Truthy(v) then Number(IntOf(v)) else v
  }

  /** Lines 203-207 for one key: a missing key stays missing. */
  function Coerce(data: Rules, key: seq<Byte>): (r: Rules)
    ensures r.Keys == data.Keys
    ensures Get(r, key) == CoerceValue(Get(data, key))
    ensures forall k :: k != key ==> Get(r, k) == Get(data, k)
  {
    if key in data && Truthy(data[key]) then data[key := Number(IntOf(data[key]))] else data
  }

  /** Lines 203-207: the three counts are coerced. */
  function CoerceCounts(data: Rules): (r: Rules)
    ensures r.Keys == data.Keys
    ensures Get(r, NUMPLAYERS) == CoerceValue(Get(data, NUMPLAYERS))
    ensures Get(r, MAXPLAYERS) == CoerceValue(Get(data, MAXPLAYERS))
    ensures Get(r, HOSTPORT) == CoerceValue(Get(data, HOSTPORT))
    ensures forall k :: k !in {NUMPLAYERS, MAXPLAYERS, HOSTPORT} ==> Get(r, k) == Get(data, k)
  {
    Coerce(Coerce(Coerce(data, NUMPLAYERS), MAXPLAYERS), HOSTPORT)
  }

  /** Lines 209-210: the message of the day is kept raw and cleaned. */
  function WithMotd(data: Rules): (r: Rules)
    requires Get(data, MOTD).Text? || Get(data, MOTD).Null?
    ensures r.Keys == data.Keys + {RAW_MOTD, MOTD}
    ensures r[RAW_MOTD] == Get(data, MOTD)
    ensures r[MOTD] == Text(CleanMotd(TextOf(Get(data, MOTD))))
    ensures forall k :: k !in {RAW_MOTD, MOTD} ==> Get(r, k) == Get(data, k)
  {
    var raw := Get(data, MOTD);
    data[RAW_MOTD := raw][MOTD := Text(CleanMotd(TextOf(raw)))]
  }

  /** Lines 212-214: the plugin text is kept raw, and the software and the
      list of plugins parsed from it are stored. */
  function WithPlugins(data: Rules, info: PluginInfo): (r: Rules)
    ensures r.Keys == data.Keys + {RAW_PLUGINS, SOFTWARE, PLUGINS}
    ensures r[RAW_PLUGINS] == Get(data, PLUGINS)
    ensures r[SOFTWARE] == Text(info.software)
    ensures r[PLUGINS] == Names(info.plugins)
    ensures forall k :: k !in {RAW_PLUGINS, SOFTWARE, PLUGINS} ==> Get(r, k) == Get(data, k)
  {
    data[RAW_PLUGINS := Get(data, PLUGINS)][SOFTWARE := Text(info.software)][PLUGINS := Names(info.plugins)]
  }

  function PingValue(ping: Option<int>): (r: Value)
  {
    if ping.Some? then Number(ping.value) else Null
  }

  /** Lines 193-216 after the pairing, given the player list and the
      parsed plugin text: the players are stored, the counts coerced, the
      message of the day kept raw and cleaned, the plugin text kept raw and
      replaced by its parse, and the ping attached. */
  function Assemble(data: Rules, players: seq<seq<Byte>>, info: PluginInfo, ping: Option<int>): (r: Rules)
    requires TextOrNull(data)
  {
    var counted := CoerceCounts(data[PLAYERS := Names(players)]);
    WithPlugins(WithMotd(counted), info)[PING := PingValue(ping)]
  }

  /** Lines 193-216 after the pairing. The plugin text parsed at line 214
      is the server's own value, since none of the steps before it writes
      the key "plugins". */
  function Finish(data: Rules, block: seq<Byte>, ping: Option<int>): (r: Rules)
    requires TextOrNull(data)
  {
    Assemble(data, PlayerList(block), ParsePlugins(TextOf(Get(data, PLUGINS))), ping)
  }

  /** `getRules` adds exactly the derived keys to the server's pairs. */
  lemma AssembleKeys(data: Rules, players: seq<seq<Byte>>, info: PluginInfo, ping: Option<int>)
    requires TextOrNull(data)
    ensures Assemble(data, players, info, ping).Keys
         == data.Keys + {PLAYERS, RAW_MOTD, MOTD, RAW_PLUGINS, SOFTWARE, PLUGINS, PING}
  {
  }

  /** Every pair the server sent under a key `getRules` does not derive is
      passed through unchanged. */
  lemma AssemblePassThrough(data: Rules, players: seq<seq<Byte>>, info: PluginInfo, ping: Option<int>)
    requires TextOrNull(data)
    ensures forall k :: k !in DERIVED ==> Get(Assemble(data, players, info, ping), k) == Get(data, k)
  {
    forall k | k !in DERIVED
      ensures Get(Assemble(data, players, info, ping), k) == Get(data, k)
    {
      AssembleKeepsCounted(data, players, info, ping, k);
    }
  }

  /** The three counts are coerced to integers when truthy and left as
      they are otherwise (missing, "" or "0"). */
  lemma AssembleCounts(data: Rules, players: seq<seq<Byte>>, info: PluginInfo, ping: Option<int>)
    requires TextOrNull(data)
    ensures Get(Assemble(data, players, info, ping), NUMPLAYERS) == CoerceValue(Get(data, NUMPLAYERS))
    ensures Get(Assemble(data, players, info, ping), MAXPLAYERS) == CoerceValue(Get(data, MAXPLAYERS))
    ensures Get(Assemble(data, players, info, ping), HOSTPORT) == CoerceValue(Get(data, HOSTPORT))
  {
    var d1 := data[PLAYERS := Names(players)];
    assert Get(d1, NUMPLAYERS) == Get(data, NUMPLAYERS);
    assert Get(d1, MAXPLAYERS) == Get(data, MAXPLAYERS);
    assert Get(d1, HOSTPORT) == Get(data, HOSTPORT);
    AssembleKeepsCounted(data, players, info, ping, NUMPLAYERS);
    AssembleKeepsCounted(data, players, info, ping, MAXPLAYERS);
    AssembleKeepsCounted(data, players, info, ping, HOSTPORT);
  }

  /** Lines 209-216 leave every key they do not write as the coercion of
      lines 203-207 left it. */
  lemma AssembleKeepsCounted(data: Rules, players: seq<seq<Byte>>, info: PluginInfo, ping: Option<int>, k: seq<Byte>)
    requires TextOrNull(data)
    requires k !in {RAW_MOTD, MOTD} && k !in {RAW_PLUGINS, SOFTWARE, PLUGINS} && k != PING
    ensures Get(Assemble(data, players, info, ping), k) == Get(CoerceCounts(data[PLAYERS := Names(players)]), k)
  {
    var counted := CoerceCounts(data[PLAYERS := Names(players)]);
    var motd := WithMotd(counted);
    var plugins := WithPlugins(motd, info);
    assert Get(plugins, k) == Get(motd, k) == Get(counted, k);
  }

  /** The player list replaces whatever the server sent under "players". */
  lemma AssemblePlayers(data: Rules, players: seq<seq<Byte>>, info: PluginInfo, ping: Option<int>)
    requires TextOrNull(data)
    ensures Get(Assemble(data, players, info, ping), PLAYERS) == Names(players)
  {
    var d1 := data[PLAYERS := Names(players)];
    var counted := CoerceCounts(d1);
    var motd := WithMotd(counted);
    var plugins := WithPlugins(motd, info);
    assert PLAYERS !in {NUMPLAYERS, MAXPLAYERS, HOSTPORT};
    assert Get(counted, PLAYERS) == Names(players);
    assert PLAYERS !in {RAW_MOTD, MOTD};
    assert Get(motd, PLAYERS) == Names(players);
    assert PLAYERS !in {RAW_PLUGINS, SOFTWARE, PLUGINS};
    assert Get(plugins, PLAYERS) == Names(players);
  }

  /** The raw and the cleaned message of the day. */
  lemma AssembleMotd(data: Rules, players: seq<seq<Byte>>, info: PluginInfo, ping: Option<int>)
    requires TextOrNull(data)
    ensures Get(Assemble(data, players, info, ping), RAW_MOTD) == Get(data, MOTD)
    ensures Get(Assemble(data, players, info, ping), MOTD) == Text(CleanMotd(TextOf(Get(data, MOTD))))
  {
    var counted := CoerceCounts(data[PLAYERS := Names(players)]);
    assert MOTD !in {NUMPLAYERS, MAXPLAYERS, HOSTPORT};
    assert Get(counted, MOTD) == Get(data, MOTD);
    MotdSurvivesPlugins(counted, info, ping);
  }

  /** Lines 212-216 leave both message-of-the-day keys alone. */
  lemma MotdSurvivesPlugins(counted: Rules, info: PluginInfo, ping: Option<int>)
    requires Get(counted, MOTD).Text? || Get(counted, MOTD).Null?
    ensures Get(WithPlugins(WithMotd(counted), info)[PING := PingValue(ping)], RAW_MOTD) == Get(counted, MOTD)
    ensures Get(WithPlugins(WithMotd(counted), info)[PING := PingValue(ping)], MOTD)
         == Text(CleanMotd(TextOf(Get(counted, MOTD))))
  {
    var motd := WithMotd(counted);
    assert RAW_MOTD !in {RAW_PLUGINS, SOFTWARE, PLUGINS} && MOTD !in {RAW_PLUGINS, SOFTWARE, PLUGINS};
    assert Get(WithPlugins(motd, info), RAW_MOTD) == motd[RAW_MOTD];
    assert Get(WithPlugins(motd, info), MOTD) == motd[MOTD];
  }

  /** The raw plugin text, its parse, and the ping. */
  lemma AssemblePlugins(data: Rules, players: seq<seq<Byte>>, info: PluginInfo, ping: Option<int>)
    requires TextOrNull(data)
    ensures Get(Assemble(data, players, info, ping), RAW_PLUGINS) == Get(data, PLUGINS)
    ensures Get(Assemble(data, players, info, ping), SOFTWARE) == Text(info.software)
    ensures Get(Assemble(data, players, info, ping), PLUGINS) == Names(info.plugins)
    ensures Get(Assemble(data, players, info, ping), PING) == PingValue(ping)
  {
    var counted := CoerceCounts(data[PLAYERS := Names(players)]);
    var motd := WithMotd(counted);
    assert Get(motd, PLUGINS) == Get(data, PLUGINS);
  }

  /** The server's tokens: the key/value block after the rename, split at
      NUL bytes (lines 176-183). */
  function RulesTokens(payload: seq<Byte>): (r: seq<seq<Byte>>)
  {
    Explode(RenameHostname(SplitBlocks(payload).0), [NUL])
  }

  /** The full-status parse of `getRules` (lines 176-216). */
  function ParseRules(payload: seq<Byte>, ping: Option<int>): (r: Rules)
  {
    Finish(RulesData(payload), SplitBlocks(payload).1, ping)
  }

  lemma CombineTextOrNull(keys: seq<seq<Byte>>, values: seq<Value>)
    requires |keys| == |values|
    requires forall i :: 0 <= i < |values| ==> values[i].Text? || values[i].Null?
    ensures TextOrNull(Combine(keys, values))
  {
  }

  // ----------------------------------------------------- full-status lemmas

  /** `array_combine` of the paired tokens (lines 186-193). */
  function Pairs(tokens: seq<seq<Byte>>): (data: Rules)
    ensures TextOrNull(data)
  {
    CombineTextOrNull(PairKeys(tokens), PairValues(tokens));
    Combine(PairKeys(tokens), PairValues(tokens))
  }

  /** The server's pairs: lines 176-193 before the derived keys. */
  function RulesData(payload: seq<Byte>): (data: Rules)
    ensures TextOrNull(data)
  {
    Pairs(RulesTokens(payload))
  }

  /** `getRules` passes the server's pairs through under every key it does
      not derive itself. */
  lemma RulesPassThrough(payload: seq<Byte>, ping: Option<int>)
    ensures forall k :: k !in DERIVED ==> Get(ParseRules(payload, ping), k) == Get(RulesData(payload), k)
  {
    var data := RulesData(payload);
    AssemblePassThrough(data, PlayerList(SplitBlocks(payload).1), ParsePlugins(TextOf(Get(data, PLUGINS))), ping);
  }

  /** A key maps to the token after its last occurrence as a key, or to
      `null` when it is the last token. */
  lemma PairsValue(tokens: seq<seq<Byte>>, j: nat)
    requires j % 2 == 0 && j < |tokens|
    requires forall i :: j < i < |tokens| && i % 2 == 0 ==> tokens[i] != tokens[j]
    ensures Get(Pairs(tokens), tokens[j]) == if j + 1 < |tokens| then Text(tokens[j + 1]) else Null
  {
    var keys, values := PairKeys(tokens), PairValues(tokens);
    PairAt(tokens, j);
    CombineLastWins(keys, values, j / 2);
  }

  /** Token `j`, a key, is pair `j / 2`, and no later pair has its key. */
  lemma PairAt(tokens: seq<seq<Byte>>, j: nat)
    requires j % 2 == 0 && j < |tokens|
    requires forall i :: j < i < |tokens| && i % 2 == 0 ==> tokens[i] != tokens[j]
    ensures var keys, values := PairKeys(tokens), PairValues(tokens);
            && j / 2 < |keys| && keys[j / 2] == tokens[j]
            && values[j / 2] == (if j + 1 < |tokens| then Text(tokens[j + 1]) else Null)
            && forall i :: j / 2 < i < |keys| ==> keys[i] != keys[j / 2]
  {
    var keys, values := PairKeys(tokens), PairValues(tokens);
    var h := j / 2;
    assert 2 * h == j && 2 * h + 1 == j + 1;
    assert keys[h] == tokens[2 * h];
    assert values[h] == if 2 * h + 1 < |tokens| then Text(tokens[2 * h + 1]) else Null;
    LaterKeysDiffer(tokens, h);
  }

  /** No pair after pair `h` has its key, when no later even-numbered
      token equals token `2 * h`. */
  lemma LaterKeysDiffer(tokens: seq<seq<Byte>>, h: nat)
    requires 2 * h < |tokens|
    requires forall i :: 2 * h < i < |tokens| && i % 2 == 0 ==> tokens[i] != tokens[2 * h]
    ensures forall i :: h < i < |PairKeys(tokens)| ==> PairKeys(tokens)[i] != PairKeys(tokens)[h]
  {
    var keys := PairKeys(tokens);
    forall i | h < i < |keys| ensures keys[i] != keys[h] {
      var t := 2 * i;
      Double(i);
      assert keys[i] == tokens[t] && 2 * h < t;
    }
  }

  /** The keys are exactly the even-numbered tokens. */
  lemma PairsKeys(tokens: seq<seq<Byte>>, k: seq<Byte>)
    ensures k in Pairs(tokens) <==> exists i :: 0 <= i < |tokens| && i % 2 == 0 && tokens[i] == k
  {
    var keys := PairKeys(tokens);
    assert k in Pairs(tokens) <==> k in keys;
    if k in keys {
      KeyIsEvenToken(tokens, k);
    }
    if i :| 0 <= i < |tokens| && i % 2 == 0 && tokens[i] == k {
      EvenTokenIsKey(tokens, i);
    }
  }

  lemma KeyIsEvenToken(tokens: seq<seq<Byte>>, k: seq<Byte>)
    requires k in PairKeys(tokens)
    ensures exists i :: 0 <= i < |tokens| && i % 2 == 0 && tokens[i] == k
  {
    var keys := PairKeys(tokens);
    var m :| 0 <= m < |keys| && keys[m] == k;
    var i := 2 * m;
    Double(m);
    assert i < |tokens| && tokens[i] == k;
  }

  /** Twice a number is even and halves back to it. */
  lemma Double(m: nat)
    ensures (2 * m) % 2 == 0 && (2 * m) / 2 == m
  {
  }

  lemma EvenTokenIsKey(tokens: seq<seq<Byte>>, i: nat)
    requires i < |tokens| && i % 2 == 0
    ensures tokens[i] in PairKeys(tokens)
  {
    var m := i / 2;
    assert 2 * m == i;
    assert PairKeys(tokens)[m] == tokens[2 * m];
  }

  /** The full-status reply's two blocks: after the 11 bytes of padding,
      the key/value block runs up to the first delimiter and the player
      block after it up to the next delimiter, provided no delimiter starts
      inside the key/value block. */
  lemma RulesSplit(pad: seq<Byte>, items: seq<Byte>, rest: seq<Byte>)
    requires |pad| == PADDING_LENGTH
    requires forall j: nat :: j < |items| ==> !OccursAt(items + DELIMITER, DELIMITER, j)
    ensures SplitBlocks(pad + items + DELIMITER + rest) == (items, Explode(rest, DELIMITER)[0])
  {
    var s := items + DELIMITER + rest;
    assert From(pad + items + DELIMITER + rest, PADDING_LENGTH) == s;
    assert s[|items|..|items| + |DELIMITER|] == DELIMITER;
    forall j: nat | j < |items| ensures !OccursAt(s, DELIMITER, j) {
      WindowInPrefix(items + DELIMITER, rest, j);
    }
    FirstOccurrence(s, DELIMITER, |items|);
    assert s[..|items|] == items && s[|items| + |DELIMITER|..] == rest;
  }

  /** A delimiter-sized window that lies inside `p` reads the same in `p + q`. */
  lemma WindowInPrefix(p: seq<Byte>, q: seq<Byte>, j: nat)
    requires j + |DELIMITER| <= |p|
    ensures OccursAt(p + q, DELIMITER, j) <==> OccursAt(p, DELIMITER, j)
  {
    assert (p + q)[j..j + |DELIMITER|] == p[j..j + |DELIMITER|];
  }

  /** Without a delimiter the whole rest of the payload is the key/value
      block and there are no players. */
  lemma RulesWithoutPlayers(payload: seq<Byte>, ping: Option<int>)
    requires Free(From(payload, PADDING_LENGTH), DELIMITER)
    ensures SplitBlocks(payload) == (From(payload, PADDING_LENGTH), [])
    ensures PlayerList(SplitBlocks(payload).1) == []
  {
    var s := From(payload, PADDING_LENGTH);
    assert IndexOf(s, DELIMITER).None?;
  }

  /** The key/value block of a reply that starts with `key`, a text without
      NUL bytes, is `key` followed by the key/value block of the rest. */
  lemma SplitAfterKey(pad: seq<Byte>, key: seq<Byte>, rest: seq<Byte>)
    requires |pad| == PADDING_LENGTH
    requires forall k :: 0 <= k < |key| ==> key[k] != NUL
    ensures SplitBlocks(pad + key + rest).0 == key + SplitBlocks(pad + rest).0
    ensures SplitBlocks(pad + key + rest).1 == SplitBlocks(pad + rest).1
  {
    assert From(pad + key + rest, PADDING_LENGTH) == key + rest;
    assert From(pad + rest, PADDING_LENGTH) == rest;
    ExplodeAfterPrefix(key, rest, DELIMITER);
    var e: seq<seq<Byte>> := Explode(key + rest, DELIMITER);
    var f: seq<seq<Byte>> := Explode(rest, DELIMITER);
    if |f| >= 2 {
      assert e[1] == e[1..][0] == f[1..][0] == f[1];
    }
  }

  /** A reply whose first key is "hostname" gives the same pairs and the
      same player block as the same reply with that key spelled "motd"
      (lines 179-181), so `ParseRules`, which reads the payload only through
      those two, parses both alike. */
  lemma HostnameAlias(pad: seq<Byte>, rest: seq<Byte>)
    requires |pad| == PADDING_LENGTH
    ensures RulesData(pad + HOSTNAME + rest) == RulesData(pad + MOTD + rest)
    ensures SplitBlocks(pad + HOSTNAME + rest).1 == SplitBlocks(pad + MOTD + rest).1
  {
    SplitAfterKey(pad, HOSTNAME, rest);
    SplitAfterKey(pad, MOTD, rest);
    var r0 := SplitBlocks(pad + rest).0;
    assert (HOSTNAME + r0)[..8] == HOSTNAME && (HOSTNAME + r0)[8..] == r0;
    assert (MOTD + r0)[0] != HOSTNAME[0];
    assert RulesTokens(pad + HOSTNAME + rest) == RulesTokens(pad + MOTD + rest);
  }

  /** Splitting the NUL-joined names gives the names back. */
  lemma {:induction false} ExplodeJoinNames(names: seq<seq<Byte>>)
    requires |names| >= 1
    requires forall i :: 0 <= i < |names| ==> NulFree(names[i])
    ensures Explode(Join(names, [NUL]), [NUL]) == names
  {
    if |names| == 1 {
      ExplodeWithoutByte(names[0], NUL);
    } else {
      FirstByte(names[0], NUL, Join(names[1..], [NUL]));
      ExplodeJoinNames(names[1..]);
    }
  }

  /** A player block as a server lays it out (NUL-separated names and two
      closing NUL bytes) gives the names back, unless the names join to a
      falsy text. */
  lemma PlayersRoundTrip(names: seq<seq<Byte>>)
    requires |names| >= 1
    requires forall i :: 0 <= i < |names| ==> NulFree(names[i])
    requires Strings.Truthy(Join(names, [NUL]))
    ensures PlayerList(Join(names, [NUL]) + [NUL, NUL]) == names
  {
    assert ChopEnd(Join(names, [NUL]) + [NUL, NUL], 2) == Join(names, [NUL]);
    ExplodeJoinNames(names);
  }

  /** The player list: none for a falsy block ("" or "0" once the closing
      bytes are dropped); otherwise NUL-free names, one more than the NUL
      bytes of the block, that join back to it. It is never a list holding
      one empty name. */
  lemma PlayerListShape(block: seq<Byte>)
    ensures var t := ChopEnd(block, 2);
            && (!Strings.Truthy(t) ==> PlayerList(block) == [])
            && (Strings.Truthy(t) ==>
                  && Join(PlayerList(block), [NUL]) == t
                  && |PlayerList(block)| == Count(t, NUL) + 1
                  && forall i :: 0 <= i < |PlayerList(block)| ==> Free(PlayerList(block)[i], [NUL]))
    ensures PlayerList(block) != [[]]
  {
    var t := ChopEnd(block, 2);
    if Strings.Truthy(t) {
      ExplodeByteCount(t, NUL);
    }
  }

  /** A lone player called "0" is lost: the block "0" is falsy. */
  lemma PlayerNamedZero()
    ensures PlayerList([48, NUL, NUL]) == []
  {
    assert ChopEnd([48, NUL, NUL], 2) == [48];
  }

  /** The count coercion of lines 203-207 on typical values: a numeral is
      read as a number, "0" and "" are left as text, a missing count stays
      missing. */
  lemma CoerceExamples()
    ensures CoerceValue(Text([50, 48])) == Number(20)
    ensures CoerceValue(Text([48])) == Text([48])
    ensures CoerceValue(Text([])) == Text([])
    ensures CoerceValue(Null) == Null
  {
    assert LeadingDigits([50, 48]) == [50, 48];
    assert DigitsValue([50, 48]) == 20;
  }
}
