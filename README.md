# Minecraft server query client, modelled in Dafny

This project models the client class `ServerQuery` of arokettu/minecraft-query
(`classes/ServerQuery.php`). The class is a client for the UDP "Query" protocol
of Minecraft (GameSpot4) servers. The model proves properties of it.

The class does three things, and the model follows them module by module:

- **Packet codec** (`codec.dfy`, module `Codec`).
  - A request is the magic bytes `FE FD`, a type byte, the big-endian 32-bit
    session id, the big-endian 32-bit challenge token and a payload.
  - A reply is split into a type byte, a big-endian id and a payload.
- **Reply parsers** (`parsers.dfy`, `responses.dfy`, modules `Parsers` and
  `Responses`).
  - The basic status of `getStatus`: NUL-separated fields, a little-endian
    port and a host name.
  - The full status of `getRules`:
    - an 11-byte padding;
    - a key/value block and a player block around the `player_` delimiter;
    - the `hostname` to `motd` rename;
    - the pairing loop;
    - the coercion of the counts;
    - the message of the day with its `&x` colour codes removed (`cleanMotd`);
    - the plugin text parsed into software and plugins (`parsePlugins`).
- **Session** (`session.dfy`, module `Session`, and `client.dfy`, module
  `Client`).
  - The challenge handshake, with its retry counter and bypass flag.
  - The two queries, with their recovery from lost replies.
  - `Session` describes the conversation as functions of a state value.
  - `Client.ServerQuery` is the class itself: fields updated in place, and
    recursive methods. Each method is proved to move the object exactly as
    the matching `Session` function moves the state value. So the `Session`
    lemmas hold of the object.

PHP's string primitives are modelled on byte sequences in `strings.dfy`
(module `Strings`). These are `substr`, `explode` with and without a limit,
`trim`, `intval` and truthiness. `bytes.dfy` defines the byte type and
`Option`.

The network is a parameter: a finite script of what each read of the socket
sees.

- An outcome is either a lost reply (`Fail`) or a datagram together with its
  measured round-trip time.
- Every datagram sent is recorded in order.
- A read past the end of the script yields `Exhausted`. This stands for a
  network that never answers again. It is how a conversation the source
  would continue for ever shows up in the model.

## Behaviour worth knowing

The model follows the code in each of these cases, some of which a reader
of the protocol might expect to go otherwise:

- **Odd token count.** An odd number of key/value tokens does not drop the last
  key. The pairing loop reads past the end, so that key maps to `null`. See
  `PairValues` and `PairsValue`.
- **Zero counts.** The counts of the full status are coerced only when PHP
  finds them truthy. So `"0"` stays the text `"0"`, like `""`. See
  `CoerceExamples`.
- **Player called "0".** A player block holding the single name `"0"` is falsy
  and gives no players. See `PlayerNamedZero`.
- **Missing delimiter.** A full-status reply without the `player_` delimiter is
  not an error. The whole text after the padding is the key/value block and
  there are no players. See `RulesWithoutPlayers`.
- **Status retries.** `getStatus` neither retries a lost query just once nor
  counts it against the limit. Each lost query is followed by a handshake and
  a new query, so it goes on as long as the handshakes are answered. See
  `StatusOutlastsLostQueries`.
- **Short datagrams.** A datagram shorter than five bytes is not an error:
  `unpack` yields no value and the payload is empty. See `ReadSplit`.
- **Challenge token.** The challenge token is never cleared before a
  re-handshake. The new challenge request carries the old token.

## Model

| member | source | states |
|---|---|---|
| Codec.PackN | classes/ServerQuery.php:52-53 | `pack('N', x)` is four bytes |
| Codec.UnpackN | classes/ServerQuery.php:82 | `unpack('N')` of four bytes is an unsigned number below 2^32 |
| Codec.UnpackPackN | classes/ServerQuery.php:82 | unpacking a packed number gives the number modulo 2^32 back |
| Codec.PackUnpackN | classes/ServerQuery.php:82 | packing an unpacked word gives the four bytes back |
| Codec.Request | classes/ServerQuery.php:62-71 | the datagram `sendPacket` hands to `sendRaw`: magic prefix, type byte, packed id, packed token, payload; `RequestLayout` states its length and that an independent reader gets every field back |
| Codec.RequestLayout | classes/ServerQuery.php:62-71 | a request is 11 bytes plus its payload; a server reads back its type, the session id and the challenge token (both modulo 2^32) and its payload |
| Codec.ZeroChallenge | classes/ServerQuery.php:53 | before any handshake the challenge field is four zero bytes |
| Codec.RawDatagram | classes/ServerQuery.php:62-66 | the datagram `sendRaw` sends: the magic prefix `FE FD` and then the data; `Client.ServerQuery.SendRaw` appends exactly this datagram to what was sent, and `RequestLayout` reads the prefix back from every request |
| Codec.ReadSplit | classes/ServerQuery.php:81-83 | the three parts `readPacket` returns: type byte, big-endian id, payload from byte 5 on; `ReadSplitReply` and `ReplyOfReadSplit` make it the inverse of building a reply |
| Codec.ReadSplitReply | classes/ServerQuery.php:81-83 | `readPacket` recovers the type, the id modulo 2^32 and the payload a server put in a reply |
| Codec.ReplyOfReadSplit | classes/ServerQuery.php:81-83 | a datagram of at least five bytes is exactly the reply built from its three parts |
| Strings.Explode | classes/ServerQuery.php:183 | `explode` gives at least one piece; the pieces joined with the delimiter are the input; no piece contains the delimiter |
| Strings.ExplodeLimit | classes/ServerQuery.php:139 | `explode` with a limit gives between 1 and `limit` pieces that join back to the input; all but the last are free of the delimiter, and the last is too when fewer than `limit` pieces came out |
| Strings.From | classes/ServerQuery.php:83 | `substr(s, start)` as lines 83, 143 and 176 use it: the input is its first `start` bytes followed by the result, and a start past the end gives the empty text |
| Strings.ChopEnd | classes/ServerQuery.php:111 | `substr(s, 0, -n)` as lines 111, 145 and 195 use it: the result followed by the last `n` bytes is the input, and a text shorter than `n` gives the empty text |
| Strings.Trim | classes/ServerQuery.php:224 | PHP's `trim` with its default whitespace set; `TrimIsInfix`, `TrimPadded` and `TrimIdempotent` state what it keeps and removes |
| Strings.TrimIsInfix | classes/ServerQuery.php:224 | `trim` keeps one contiguous piece of its input that neither starts nor ends with whitespace, and removes only whitespace |
| Strings.TrimPadded | classes/ServerQuery.php:224 | `trim` removes exactly the whitespace around a text |
| Strings.TrimIdempotent | classes/ServerQuery.php:224 | trimming twice is trimming once |
| Strings.IntVal | classes/ServerQuery.php:111 | PHP's `intval` on a text: an optional sign and the leading digits; `LeadingDigits` and `IntValOfDecimal` state what it reads |
| Strings.Truthy | classes/ServerQuery.php:197 | PHP truthiness of a text: false exactly for `""` and `"0"`; `PlayerNamedZero` and `CoerceExamples` show both cases |
| Strings.LeadingDigits | classes/ServerQuery.php:111 | the digits `intval` reads are the longest run of decimal digits at the start |
| Strings.IntValOfDecimal | classes/ServerQuery.php:147-148 | `intval` reads back every decimal numeral, negative ones included |
| Parsers.CleanMotd | classes/ServerQuery.php:237-240 | the cleaned message of the day is never longer than the raw one |
| Parsers.CleanMotdLeavesNoCodes | classes/ServerQuery.php:239 | no `&` followed by a non-newline byte survives `cleanMotd` |
| Parsers.CleanMotdKeepsPlainText | classes/ServerQuery.php:239 | a text without colour codes is left unchanged |
| Parsers.CleanMotdIdempotent | classes/ServerQuery.php:239 | `cleanMotd` leaves a text unchanged exactly when it has no code, so applying it twice is applying it once |
| Parsers.CleanMotdAppend | classes/ServerQuery.php:239 | `cleanMotd` works piece by piece when the first piece does not end in `&` |
| Parsers.CleanMotdExample | classes/ServerQuery.php:239 | `"&4Red &r&lServer"` is cleaned to `"Red Server"` |
| Parsers.ExplodeByteCount | classes/ServerQuery.php:228 | splitting on one byte gives one piece more than the byte's occurrences |
| Parsers.ParsePlugins | classes/ServerQuery.php:221-235 | `parsePlugins`: software before the first colon, plugins after it split at `;`, both trimmed; `ParsePluginsNoColon`, `ParsePluginsSoftware`, `ParsePluginsWithColon` and `ParsePluginsThree` state it |
| Parsers.ParsePluginsNoColon | classes/ServerQuery.php:221-235 | without a colon the software is the whole trimmed text and there are no plugins |
| Parsers.ParsePluginsSoftware | classes/ServerQuery.php:221-224 | with a colon, the software is the trimmed text before the first one |
| Parsers.ParsePluginsWithColon | classes/ServerQuery.php:221-235 | with a colon, the plugins are the trimmed `;`-pieces of the text after the first one, in order |
| Parsers.ParsePluginsThree | classes/ServerQuery.php:221-235 | `"software: a; b ; c"` parses to the software and `[a, b, c]` without surrounding spaces |
| Parsers.TrimEach | classes/ServerQuery.php:229-231 | the `array_map` of `trim` over the plugin pieces: one trimmed entry per piece, in order; `ParsePluginsWithColon` and `ParsePluginsThree` state the plugin list it yields |
| Responses.UnpackV | classes/ServerQuery.php:141 | `unpack('v')` gives a value exactly when two bytes are there; it is below 65536, with low byte first |
| Responses.UnpackVOfPort | classes/ServerQuery.php:141 | unpacking a port's little-endian bytes gives the port back |
| Responses.UnpackVExample | classes/ServerQuery.php:141 | bytes `63 DD` give port 56675 |
| Responses.Item | classes/ServerQuery.php:132-139 | piece `k` of the `list()` assignment, or `null` when `explode` gave fewer pieces; `BasicPieces` and `ParseBasicPayload` state the pieces of a well-formed payload |
| Responses.OrEmpty | classes/ServerQuery.php:141-145 | a missing sixth piece used as text reads as the empty text, so the port is absent and the host name empty |
| Responses.ParseBasic | classes/ServerQuery.php:132-150 | the basic status `getStatus` returns; `BasicPieces`, `ParseBasicPayload` and `ParseBasicCounts` state that a laid-out payload gives every field back |
| Responses.BasicPieces | classes/ServerQuery.php:132-139 | the limited `explode` of a basic-status payload gives its five fields and the rest |
| Responses.ParseBasicPayload | classes/ServerQuery.php:132-150 | `getStatus` recovers every field of a basic-status payload: the five texts, the counts through `intval`, the port and the host name without its terminator, and the ping |
| Responses.ParseBasicCounts | classes/ServerQuery.php:147-148 | player counts sent as decimal numerals come back as those numbers |
| Responses.PairKeys | classes/ServerQuery.php:186-191 | the keys are the even-numbered tokens, in order |
| Responses.PairValues | classes/ServerQuery.php:186-191 | the values are the odd-numbered tokens, in order; a last key without one gets `null` |
| Responses.PairUp | classes/ServerQuery.php:186-191 | the shared-index loop builds exactly those keys and values |
| Responses.Combine | classes/ServerQuery.php:193 | `array_combine` has exactly the given keys, and each maps to one of the given values |
| Responses.CombineLastWins | classes/ServerQuery.php:193 | a key maps to the value paired with its last occurrence |
| Responses.KeySpelling | classes/ServerQuery.php:179-216 | each key constant is the ASCII spelling of the key the source reads or writes (`hostname`, `motd`, `raw_motd`, `players`, the counts, `hostport`, the plugin keys and `ping`) |
| Responses.CoerceValue | classes/ServerQuery.php:203-207 | a falsy value is left as is; a truthy text becomes its `intval` |
| Responses.Coerce | classes/ServerQuery.php:203-207 | coercing one key changes no key set and no other entry |
| Responses.CoerceCounts | classes/ServerQuery.php:203-207 | the three counts are coerced, every other entry and the key set stay |
| Responses.WithMotd | classes/ServerQuery.php:209-210 | `raw_motd` gets the server's motd, `motd` its cleaned text, nothing else changes |
| Responses.WithPlugins | classes/ServerQuery.php:212-214 | `raw_plugins` gets the plugin text, `software` and `plugins` its parse, nothing else changes |
| Responses.Assemble | classes/ServerQuery.php:195-216 | the derived entries written over the server's pairs; `AssembleKeys`, `AssemblePassThrough`, `AssembleCounts`, `AssemblePlayers`, `AssembleMotd`, `AssembleKeepsCounted` and `AssemblePlugins` state each entry |
| Responses.Finish | classes/ServerQuery.php:195-216 | `Assemble` with the player list and the parsed plugin text of the reply |
| Responses.AssembleKeys | classes/ServerQuery.php:195-216 | the full status has the server's keys plus exactly the derived ones |
| Responses.AssemblePassThrough | classes/ServerQuery.php:195-216 | every pair under a key `getRules` does not derive is passed through unchanged |
| Responses.AssembleCounts | classes/ServerQuery.php:203-207 | in the full status the three counts are the coerced server values |
| Responses.AssemblePlayers | classes/ServerQuery.php:195-201 | the player list replaces whatever the server sent under `players` |
| Responses.AssembleMotd | classes/ServerQuery.php:209-210 | `raw_motd` holds the server's motd and `motd` its cleaned text |
| Responses.AssembleKeepsCounted | classes/ServerQuery.php:209-216 | every key lines 209-216 do not write keeps the value the coercion gave it |
| Responses.AssemblePlugins | classes/ServerQuery.php:212-216 | the raw plugin text, the software, the plugin list and the ping are stored |
| Responses.Pairs | classes/ServerQuery.php:186-193 | every value the server's pairs give is a text or `null` |
| Responses.RulesData | classes/ServerQuery.php:176-193 | every value of the server's key/value block is a text or `null` |
| Responses.PairsKeys | classes/ServerQuery.php:186-193 | a key is present exactly when it is an even-numbered token |
| Responses.PairsValue | classes/ServerQuery.php:186-193 | a key maps to the token after its last occurrence as a key, or to `null` when no token follows |
| Responses.ParseRules | classes/ServerQuery.php:176-216 | the full status `getRules` returns; `RulesPassThrough`, `HostnameAlias`, `RulesWithoutPlayers` and the `Assemble*` rows state it, and `Client.BuildRules` computes it imperatively |
| Responses.RulesPassThrough | classes/ServerQuery.php:176-216 | the full status holds the server's pair under every key it does not derive |
| Responses.SplitBlocks | classes/ServerQuery.php:176-177 | the padding cut and the split into key/value block and player block; `RulesSplit`, `RulesWithoutPlayers` and `SplitAfterKey` state where the blocks lie |
| Responses.RenameHostname | classes/ServerQuery.php:179-181 | a leading `hostname` becomes `motd`; `HostnameAlias` states that both replies parse alike |
| Responses.RulesSplit | classes/ServerQuery.php:176-177 | after the 11 padding bytes, the key/value block runs to the first delimiter, and the player block runs from it to the next delimiter, whatever bytes the block holds as long as no delimiter starts inside it |
| Responses.RulesWithoutPlayers | classes/ServerQuery.php:177-200 | without a delimiter the whole rest is the key/value block, the player block is empty and the player list has no names |
| Responses.SplitAfterKey | classes/ServerQuery.php:176-177 | a leading NUL-free key is kept in front of the key/value block, and the player block does not change |
| Responses.HostnameAlias | classes/ServerQuery.php:179-181 | a reply whose first key is `hostname` gives the same pairs and the same player block as the same reply with `motd`, so both parse alike |
| Responses.PlayerList | classes/ServerQuery.php:195-201 | the player list of the full status; `PlayersRoundTrip`, `PlayerListShape` and `PlayerNamedZero` state it |
| Responses.ExplodeJoinNames | classes/ServerQuery.php:198 | splitting NUL-joined names gives the names back |
| Responses.PlayersRoundTrip | classes/ServerQuery.php:195-201 | a player block laid out by a server gives its names back, in order, unless they join to a falsy text |
| Responses.PlayerListShape | classes/ServerQuery.php:195-201 | a falsy block gives no players; otherwise NUL-free names that join back to the block, one more than its NUL bytes; never one empty name |
| Responses.PlayerNamedZero | classes/ServerQuery.php:195-201 | a lone player called `"0"` is lost |
| Responses.CoerceExamples | classes/ServerQuery.php:203-207 | `"20"` becomes 20; `"0"`, `""` and a missing count are left as they are |
| Responses.Truthy | classes/ServerQuery.php:204 | PHP truthiness of an array value: a text as `Strings.Truthy`, a number when nonzero, an array when nonempty, `null` never; `CoerceValue` and `CoerceExamples` state what it lets through |
| Responses.IntOf | classes/ServerQuery.php:205 | `intval` of an array value; `CoerceValue` states that a truthy text becomes the number `IntVal` reads from it |
| Responses.Get | classes/ServerQuery.php:204-212 | reading `$data` at a key: the stored value, or `null` when the key is missing; `Coerce`, `AssemblePassThrough` and `AssembleMotd` state the result through it |
| Responses.PingValue | classes/ServerQuery.php:216 | the ping as an array value: the number, or `null` before any handshake; `AssemblePlugins` states that the `ping` key holds it |
| Responses.RulesTokens | classes/ServerQuery.php:176-183 | the NUL-separated tokens of the key/value block after the padding is cut and `hostname` renamed; `RulesData` pairs them, and `HostnameAlias` shows that both spellings of the first key give the same pairs |
| Session.Valid | classes/ServerQuery.php:52-53 | the invariant: the packed id and token are the packings of the id and token, and a known token has a ping; `Init` establishes it and the `*KeepsValid` lemmas preserve it |
| Session.ChallengeOf | classes/ServerQuery.php:111 | the token of a handshake reply: `intval` of its payload without the last byte; `HandshakeSuccess` states that a handshake stores it |
| Session.Send | classes/ServerQuery.php:68-71 | `sendPacket` on the state: one request with the current token is appended to what was sent; `SendWellFormed` states its shape |
| Session.Init | classes/ServerQuery.php:47-55 | a new client is consistent, has sent nothing, counts no retry and has no challenge token |
| Session.Handshake | classes/ServerQuery.php:88-113 | a handshake consumes at least one outcome (or finds none and fails), sends at least one datagram, keeps the earlier ones, and never lowers the retry counter |
| Session.Prepare | classes/ServerQuery.php:117-119 | the conditional handshake consumes a prefix of the network and never lowers the retry counter |
| Session.Status | classes/ServerQuery.php:115-129 | the status conversation never consumes more outcomes than there are |
| Session.Rules | classes/ServerQuery.php:155-174 | the full-status conversation never consumes more outcomes than there are |
| Session.QueryRules | classes/ServerQuery.php:161-174 | the query after the opening handshake never consumes more outcomes than there are |
| Session.HandshakeCountsFailures | classes/ServerQuery.php:97-99 | a bypassing handshake leaves the counter alone; any other one adds exactly one per lost reply |
| Session.HandshakeSkipsFailures | classes/ServerQuery.php:94-106 | everything a handshake consumed before its last outcome was a lost reply, and a failed handshake consumed only lost replies |
| Session.HandshakeLoss | classes/ServerQuery.php:96-106 | after a lost reply to a challenge request, the counter grows by one unless bypassed; the handshake starts again below the limit and fails with the network error at it |
| Session.HandshakeAnswered | classes/ServerQuery.php:92-112 | an answered handshake sends one challenge request and records the reply's token, its packing and the ping |
| Session.HandshakeSuccess | classes/ServerQuery.php:109-112 | a successful handshake ended at a reply, and took that reply's token (payload minus its last byte, through `intval`), the token's packed form and its round-trip time |
| Session.HandshakeFailure | classes/ServerQuery.php:94-106 | a failed handshake changes neither the challenge token nor the ping |
| Session.HandshakeGivesUpAtLimit | classes/ServerQuery.php:101-105 | a handshake fails with the network error only with the counter at or above the limit |
| Session.HandshakeDeadServer | classes/ServerQuery.php:88-113 | against a silent server a counting handshake sends `max(1, limit - retries)` requests, then fails with the network error |
| Session.BypassHandshakeNeverGivesUp | classes/ServerQuery.php:97-103 | against a silent server a bypassing handshake below the limit never gives up and never counts |
| Session.HandshakeKeepsValid | classes/ServerQuery.php:111-112 | the packed token stays the packing of the token, and a known token has a ping |
| Session.StatusKeepsValid | classes/ServerQuery.php:115-129 | the status query keeps that consistency |
| Session.RulesKeepsValid | classes/ServerQuery.php:155-174 | the full-status query keeps that consistency |
| Session.HandshakeSendsWellFormed | classes/ServerQuery.php:92 | every datagram a handshake sends is a challenge request with the session id and no payload |
| Session.StatusSendsWellFormed | classes/ServerQuery.php:115-129 | every datagram of a status query is a well-formed challenge request or query |
| Session.RulesSendsWellFormed | classes/ServerQuery.php:155-174 | every datagram of a full-status query is well-formed; its queries carry the packed session id |
| Session.PrepareSendsWellFormed | classes/ServerQuery.php:117-119 | the opening handshake keeps the state consistent and sends only well-formed challenge requests |
| Session.HandshakeFirstSend | classes/ServerQuery.php:92 | a handshake first sends a challenge request carrying the token it started with |
| Session.QueryRulesKeepsValid | classes/ServerQuery.php:161-174 | the query after the opening handshake keeps the state consistent |
| Session.QueryRulesSendsWellFormed | classes/ServerQuery.php:161-174 | every datagram of that query and what follows it is well-formed |
| Session.CachedStatus | classes/ServerQuery.php:117-129 | with a cached token and an answer, a status query is one datagram and one reply, with no handshake |
| Session.CachedRules | classes/ServerQuery.php:157-174 | with a cached token and an answer, a full-status query is one query carrying the packed id and one reply, with no handshake |
| Session.QueriesAfterPrepare | classes/ServerQuery.php:117-119 | once the opening handshake has left a token, the query goes on as if that token had been cached |
| Session.PrepareAnswered | classes/ServerQuery.php:117-119 | without a token, the opening handshake of a query that is answered sends one challenge request and leaves the reply's token, its packing and the ping |
| Session.StatusAfterPrepare | classes/ServerQuery.php:117-129 | once the opening handshake has left a token, an answered status query sends one query that carries that token |
| Session.RulesAfterPrepare | classes/ServerQuery.php:155-174 | once the opening handshake has left a token, an answered full-status query sends one query that carries that token and the packed id |
| Session.FreshStatus | classes/ServerQuery.php:115-129 | a status query without a token, when both handshake and query are answered, sends one challenge request and then one query that carries the reply's token |
| Session.FreshRules | classes/ServerQuery.php:155-174 | a full-status query without a token, when both handshake and query are answered, sends one challenge request and then one query that carries the reply's token and the packed id |
| Session.TwoStatusQueries | classes/ServerQuery.php:115-129 | two answered status queries that start without a token send one challenge request and two queries that carry its token, and count no retry |
| Session.TwoRulesQueries | classes/ServerQuery.php:155-174 | two answered full-status queries that start without a token send one challenge request and two queries that carry its token, and count no retry |
| Session.QueryStartsWithHandshake | classes/ServerQuery.php:117-119 | without a token (unset or 0), both queries first send a challenge request |
| Session.QueryWithCachedToken | classes/ServerQuery.php:117-121 | with a token, for any network, both queries first send the query itself with the cached token, and no challenge request (the converse of `QueryStartsWithHandshake`) |
| Session.StatusSendsQueryFirst | classes/ServerQuery.php:117-121 | with a token, the status query's first datagram is the query with that token |
| Session.StatusExtendsQuery | classes/ServerQuery.php:117-127 | with a token, everything the status query sends comes after that first query |
| Session.QueryRulesExtendsQuery | classes/ServerQuery.php:161-173 | everything the full-status query sends comes after its first query, which carries the packed session id |
| Session.StatusExtendsSent | classes/ServerQuery.php:120 | a status query only appends to the datagrams sent |
| Session.StatusStep | classes/ServerQuery.php:123-127 | after a lost status query, `getStatus` is a counting handshake followed, when it is answered, by a new `getStatus`, and otherwise ends with that handshake's error |
| Session.StatusExtendsSentAfterLoss | classes/ServerQuery.php:125-127 | after a lost status query, everything the recovery sends comes after the datagrams already sent |
| Session.RulesExtendsSent | classes/ServerQuery.php:161 | a full-status query only appends to the datagrams sent |
| Session.StatusKeepsRetries | classes/ServerQuery.php:124-128 | a status query never lowers the retry counter |
| Session.RulesKeepsRetries | classes/ServerQuery.php:165-174 | a full-status query never lowers the retry counter |
| Session.QueryRulesKeepsRetries | classes/ServerQuery.php:165-174 | the query after the opening handshake never lowers the retry counter |
| Session.QueryRulesExtendsSent | classes/ServerQuery.php:161 | the query after the opening handshake only appends to the datagrams sent |
| Session.QueryRulesLoss | classes/ServerQuery.php:165-173 | after a lost full-status reply one retry is counted; at the limit the query ends with the network error, below it a bypassing handshake follows and, if it succeeds, a new `getRules` |
| Session.RulesGivesUp | classes/ServerQuery.php:165-173 | a lost full-status reply at the limit counts one retry and fails with the network error, with no handshake |
| Session.RulesDeadServer | classes/ServerQuery.php:165-174 | below the limit, a full-status query against a silent server counts one retry and then never gives up |
| Session.StatusOutlastsLostQueries | classes/ServerQuery.php:124-128 | lost status queries count no retry: the status query keeps trying, whatever the limit, while handshakes are answered |
| Session.StatusNothingLeft | classes/ServerQuery.php:120-123 | with a token cached, a status query sends its request before it looks for an answer |
| Client.ServerQuery.constructor | classes/ServerQuery.php:47-55 | the new object is the state `Session.Init` gives: no challenge token, the packed zero token, no retries counted, nothing sent; it is `Valid` |
| Client.ServerQuery.Valid | classes/ServerQuery.php:52-53 | `Session.Valid` of the object's fields; the constructor establishes it and every query method keeps it |
| Client.ServerQuery.SendRaw | classes/ServerQuery.php:62-66 | one datagram, the magic prefix and the data, is appended to what was sent; nothing else changes |
| Client.ServerQuery.SendPacket | classes/ServerQuery.php:68-71 | the request with the current token is sent, as `Session.Send` says |
| Client.ServerQuery.ReadPacket | classes/ServerQuery.php:73-86 | one outcome is consumed: a loss is the network error, a datagram is split into its parts; no other field changes |
| Client.ServerQuery.Handshake | classes/ServerQuery.php:88-113 | the object and the result move exactly as `Session.Handshake` says, and the object stays `Valid` |
| Client.ServerQuery.GetStatus | classes/ServerQuery.php:115-153 | the object moves as `Session.Status` says, and the result is that conversation's payload parsed by `ParseBasic`, or its error; the object stays `Valid` |
| Client.ServerQuery.GetRules | classes/ServerQuery.php:155-219 | the object moves as `Session.Rules` says, and the result is that conversation's payload parsed by `ParseRules`, or its error; the object stays `Valid` |
| Client.ServerQuery.Prepare | classes/ServerQuery.php:157-159 | without a token the object first makes a counting handshake; it moves as `Session.Prepare` says and reports that handshake's error; the object stays `Valid` |
| Client.ServerQuery.QueryRules | classes/ServerQuery.php:161-216 | the query sent with the packed session id, its reply parsed; the object and the result follow `Session.QueryRules`: a lost reply counts one retry, then a bypassing handshake and a new `getRules` below the limit, otherwise the network error; the object stays `Valid` |
| Client.BuildRules | classes/ServerQuery.php:176-216 | the imperative parse, with its pairing loop, builds exactly the full status `ParseRules` describes |
| Client.StatusReport | classes/ServerQuery.php:130-152 | what `getStatus` returns for the outcome of its conversation: the payload parsed by `ParseBasic` with the ping, or the conversation's error; `GetStatus` ties it to `Session.Status` |
| Client.RulesReport | classes/ServerQuery.php:176-218 | what `getRules` returns for the outcome of its conversation: the payload parsed by `ParseRules` with the ping, or the conversation's error; `GetRules` and `QueryRules` tie it to `Session.Rules` |

## Left out

- Sockets are replaced by the outcome script and the log of sent datagrams. Left out: `socket_create`, the send and receive timeouts, `socket_sendto`, `socket_recvfrom`, and the host and port they use. The constructor's timeout argument is therefore not modelled.
- The 1460-byte receive limit is not modelled: a reply datagram is taken whole.
- The clock is not modelled. `microtime` and `round` are replaced by the round-trip time each reply outcome carries, and that time is stored as the ping.
- `HUMAN_READABLE_NAMES` is a display table that no method reads.
- `intval` is modelled on an optional sign followed by leading digits. Leading whitespace, other numeric notations and 64-bit saturation are not modelled.
- `preg_replace('/&./', ...)` is modelled as the left-to-right scan the regular expression performs, not by a regular-expression engine.
- Full-status arrays are maps. PHP's insertion order and its conversion of numeric-string keys to integer keys are not modelled.
- PHP notices and deprecation warnings are not modelled. Examples: reading past the token list, or `substr` of `null`. Only the values PHP 8 produces are.
- `Exhausted` is an artefact of the finite network script. It does not exist in the source, which would go on waiting or retrying.
- Session.Status, Session.Rules, Session.QueryRules and Session.Prepare: their own contracts are weak and only bound how much of the network they consume. What they promise is stated by the `Session` lemmas about them.
  - Handshake only without a token: `QueryStartsWithHandshake` and `QueryWithCachedToken`, for every network.
  - Token reuse: `TwoStatusQueries` and `TwoRulesQueries`. They are stated for two answered queries in a row, not as a general statement about longer conversations.
- example/query.php is not part of this model: it only prints the results of the two queries.
