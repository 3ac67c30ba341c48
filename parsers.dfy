/**
 * The response parsers of the query client: the basic-status split done in
 * `getStatus`, the full-status split done in `getRules`, and the two helpers
 * `cleanMotd` and `parsePlugins`.
 */
module Parsers {
  import opened Bytes
  import opened Strings

  // ============================================================== cleanMotd

  const AMPERSAND: Byte := 38
  const NEWLINE: Byte := 10

  /** A formatting code starts at `i`: `&` and then a byte that the regex
      `.` matches, i.e. anything but a newline. */
  predicate CodeAt(s: seq<Byte>, i: nat)
  {
    i + 1 < |s| && s[i] == AMPERSAND && s[i + 1] != NEWLINE
  }

  /** `s` holds no formatting code. */
  ghost predicate NoCodes(s: seq<Byte>)
  {
    forall i: nat :: !CodeAt(s, i)
  }

  /** `cleanMotd`: `preg_replace('/&./', '', motd)`, i.e. a left-to-right
      scan that drops every `&` together with the byte after it unless that
      byte is a newline. */
  function CleanMotd(s: seq<Byte>): (r: seq<Byte>)
    ensures |r| <= |s|
    decreases |s|
  {
    if s == [] then []
    else if CodeAt(s, 0) then CleanMotd(s[2..])
    else [s[0]] + CleanMotd(s[1..])
  }

  /** No formatting code survives `cleanMotd`. */
  lemma {:induction false} CleanMotdLeavesNoCodes(s: seq<Byte>)
    ensures NoCodes(CleanMotd(s))
    decreases |s|
  {
    if s == [] {
    } else if CodeAt(s, 0) {
      CleanMotdLeavesNoCodes(s[2..]);
    } else {
      var r := CleanMotd(s);
      var tail := CleanMotd(s[1..]);
      CleanMotdLeavesNoCodes(s[1..]);
      assert r == [s[0]] + tail;
      if s[0] == AMPERSAND && |s| >= 2 {
        // a kept '&' is followed by a newline, which the scan keeps too
        assert tail == [NEWLINE] + CleanMotd(s[2..]);
      }
      forall i: nat | i > 0 ensures !CodeAt(r, i) {
        var k: nat := i - 1;
        assert CodeAt(r, i) ==> CodeAt(tail, k);
      }
    }
  }

  /** On a text without formatting codes `cleanMotd` changes nothing. */
  lemma {:induction false} CleanMotdKeepsPlainText(s: seq<Byte>)
    requires NoCodes(s)
    ensures CleanMotd(s) == s
    decreases |s|
  {
    if s != [] {
      assert !CodeAt(s, 0);
      forall i: nat ensures !CodeAt(s[1..], i) {
        assert !CodeAt(s, i + 1);
      }
      CleanMotdKeepsPlainText(s[1..]);
    }
  }

  /** `cleanMotd` leaves a text unchanged exactly when it holds no code, and
      so applying it twice is applying it once. */
  lemma CleanMotdIdempotent(s: seq<Byte>)
    ensures CleanMotd(s) == s <==> NoCodes(s)
    ensures CleanMotd(CleanMotd(s)) == CleanMotd(s)
  {
    CleanMotdLeavesNoCodes(s);
    CleanMotdKeepsPlainText(CleanMotd(s));
    if NoCodes(s) {
      CleanMotdKeepsPlainText(s);
    }
  }

  /** `cleanMotd` works piece by piece, as long as the first piece does not
      end in an `&` that could pair with the start of the second. */
  lemma {:induction false} CleanMotdAppend(p: seq<Byte>, q: seq<Byte>)
    requires p == [] || p[|p| - 1] != AMPERSAND
    ensures CleanMotd(p + q) == CleanMotd(p) + CleanMotd(q)
    decreases |p|
  {
    if p == [] {
      assert p + q == q;
    } else {
      var s := p + q;
      if CodeAt(p, 0) {
        assert CodeAt(s, 0) && s[2..] == p[2..] + q;
        CleanMotdAppend(p[2..], q);
      } else {
        assert !CodeAt(s, 0) && s[1..] == p[1..] + q;
        CleanMotdAppend(p[1..], q);
      }
    }
  }

  /** A message of the day with a colour code, a reset and a bold code:
      only the text around the codes is left. */
  lemma CleanMotdExample()
    ensures CleanMotd(Ascii("&4Red &r&lServer")) == Ascii("Red Server")
  {
    var a: seq<Byte> := [38, 52, 82, 101, 100, 32];
    var b: seq<Byte> := [38, 114, 38, 108];
    var c: seq<Byte> := [83, 101, 114, 118, 101, 114];
    ExampleBytes();
    CleanMotdAppend(a, b + c);
    CleanMotdAppend(b, c);
    CleanMotdExamplePieces();
    assert CleanMotd(a + (b + c)) == [82, 101, 100, 32] + ([] + c);
  }

  /** The bytes of the two texts of the colour-code example. */
  lemma ExampleBytes()
    ensures Ascii("&4Red &r&lServer")
         == [38, 52, 82, 101, 100, 32] + ([38, 114, 38, 108] + [83, 101, 114, 118, 101, 114])
    ensures Ascii("Red Server") == [82, 101, 100, 32] + ([] + [83, 101, 114, 118, 101, 114])
  {
  }

  lemma CleanMotdExamplePieces()
    ensures CleanMotd([38, 52, 82, 101, 100, 32]) == [82, 101, 100, 32]
    ensures CleanMotd([38, 114, 38, 108]) == []
    ensures CleanMotd([83, 101, 114, 118, 101, 114]) == [83, 101, 114, 118, 101, 114]
  {
    var a: seq<Byte> := [38, 52, 82, 101, 100, 32];
    assert CodeAt(a, 0) && a[2..] == [82, 101, 100, 32];
    WithoutAmpersand([82, 101, 100, 32]);
    var b: seq<Byte> := [38, 114, 38, 108];
    assert CodeAt(b, 0) && b[2..] == [38, 108];
    var b2: seq<Byte> := [38, 108];
    assert CodeAt(b2, 0) && b2[2..] == [];
    WithoutAmpersand([83, 101, 114, 118, 101, 114]);
  }

  /** A text without `&` is left unchanged by `cleanMotd`. */
  lemma WithoutAmpersand(s: seq<Byte>)
    requires forall k :: 0 <= k < |s| ==> s[k] != AMPERSAND
    ensures CleanMotd(s) == s
  {
    CleanMotdKeepsPlainText(s);
  }

  // =========================================================== parsePlugins

  const COLON: Byte := 58
  const SEMICOLON: Byte := 59

  /** What `parsePlugins` returns: the server software and its plugins. */
  datatype PluginInfo = PluginInfo(software: seq<Byte>, plugins: seq<seq<Byte>>)

  /** `array_map('trim', xs)`. */
  function TrimEach(xs: seq<seq<Byte>>): (r: seq<seq<Byte>>)
  {
    seq(|xs|, k requires 0 <= k < |xs| => Trim(xs[k]))
  }

  /** `parsePlugins`: the software is the trimmed text before the first
      colon; the plugins are the trimmed `;`-separated pieces after it,
      and there are none when there is no colon. */
  function ParsePlugins(raw: seq<Byte>): (r: PluginInfo)
  {
    var parts := ExplodeLimit(raw, [COLON], 2);
    PluginInfo(
      Trim(parts[0]),
      if |parts| == 2 then TrimEach(Explode(parts[1], [SEMICOLON])) else [])
  }

  /** How often byte `b` occurs in `s`. */
  function Count(s: seq<Byte>, b: Byte): (r: nat)
  {
    if s == [] then 0 else (if s[0] == b then 1 else 0) + Count(s[1..], b)
  }

  lemma {:induction false} CountAppend(s: seq<Byte>, t: seq<Byte>, b: Byte)
    ensures Count(s + t, b) == Count(s, b) + Count(t, b)
  {
    if s == [] {
      assert s + t == t;
    } else {
      assert (s + t)[0] == s[0] && (s + t)[1..] == s[1..] + t;
      CountAppend(s[1..], t, b);
      assert Count(s + t, b) == (if s[0] == b then 1 else 0) + Count(s[1..] + t, b);
    }
  }

  lemma {:induction false} CountFree(s: seq<Byte>, b: Byte)
    requires Free(s, [b])
    ensures Count(s, b) == 0
  {
    if s != [] {
      assert !OccursAt(s, [b], 0);
      forall j: nat ensures !OccursAt(s[1..], [b], j) {
        var k: nat := j + 1;
        assert OccursAt(s[1..], [b], j) ==> OccursAt(s, [b], k);
      }
      CountFree(s[1..], b);
    }
  }

  /** Splitting on a single byte yields one piece more than there are
      occurrences of that byte. */
  lemma {:induction false} ExplodeByteCount(s: seq<Byte>, b: Byte)
    ensures |Explode(s, [b])| == Count(s, b) + 1
    decreases |s|
  {
    match IndexOf(s, [b])
    case None =>
      assert Free(s, [b]);
      CountFree(s, b);
    case Some(i) =>
      PieceBeforeFirstIsFree(s, [b], i);
      CountFree(s[..i], b);
      CountAppend(s[..i] + [b], s[i + 1..], b);
      CountAppend(s[..i], [b], b);
      ExplodeByteCount(s[i + 1..], b);
  }

  /** A byte that does not occur in `a` is first found right after `a`. */
  lemma FirstByte(a: seq<Byte>, b: Byte, rest: seq<Byte>)
    requires forall k :: 0 <= k < |a| ==> a[k] != b
    ensures IndexOf(a + [b] + rest, [b]) == Some(|a|)
    ensures (a + [b] + rest)[..|a|] == a && (a + [b] + rest)[|a| + 1..] == rest
    ensures Explode(a + [b] + rest, [b]) == [a] + Explode(rest, [b])
  {
    var s := a + [b] + rest;
    forall j: nat | j < |a| ensures !OccursAt(s, [b], j) {
      assert s[j] == a[j];
    }
    assert OccursAt(s, [b], |a|);
    FirstOccurrence(s, [b], |a|);
  }

  /** Splitting on a byte that does not occur gives the whole text. */
  lemma ExplodeWithoutByte(s: seq<Byte>, b: Byte)
    requires forall k :: 0 <= k < |s| ==> s[k] != b
    ensures Explode(s, [b]) == [s]
  {
    ByteFree(s, b);
    ExplodeFree(s, [b]);
  }

  /** Without a colon the whole trimmed text is the software and there are
      no plugins. */
  lemma ParsePluginsNoColon(raw: seq<Byte>)
    requires forall k :: 0 <= k < |raw| ==> raw[k] != COLON
    ensures ParsePlugins(raw).software == Trim(raw)
    ensures ParsePlugins(raw).plugins == []
  {
    ByteFree(raw, COLON);
    assert IndexOf(raw, [COLON]).None?;
  }

  /** With a colon, the software is the trimmed text before the first one. */
  lemma ParsePluginsSoftware(before: seq<Byte>, after: seq<Byte>)
    requires forall k :: 0 <= k < |before| ==> before[k] != COLON
    ensures ParsePlugins(before + [COLON] + after).software == Trim(before)
  {
    FirstByte(before, COLON, after);
  }

  /** With a colon, the plugins are the trimmed `;`-separated pieces of the
      text after the first one, in order (so, by `ExplodeByteCount`, one
      more than it has semicolons). */
  lemma ParsePluginsWithColon(before: seq<Byte>, after: seq<Byte>)
    requires forall k :: 0 <= k < |before| ==> before[k] != COLON
    ensures ParsePlugins(before + [COLON] + after).plugins == TrimEach(Explode(after, [SEMICOLON]))
  {
    FirstByte(before, COLON, after);
  }

  /** A plugin text of the form "software: a; b ; c": the software and the
      three plugin names come back without the whitespace around them. */
  lemma ParsePluginsThree(software: seq<Byte>, a: seq<Byte>, b: seq<Byte>, c: seq<Byte>)
    requires forall k :: 0 <= k < |software| ==> software[k] != COLON
    requires forall k :: 0 <= k < |a| ==> a[k] != SEMICOLON
    requires forall k :: 0 <= k < |b| ==> b[k] != SEMICOLON
    requires forall k :: 0 <= k < |c| ==> c[k] != SEMICOLON
    requires software != [] && !IsSpace(software[0]) && !IsSpace(software[|software| - 1])
    requires a != [] && !IsSpace(a[0]) && !IsSpace(a[|a| - 1])
    requires b != [] && !IsSpace(b[0]) && !IsSpace(b[|b| - 1])
    requires c != [] && !IsSpace(c[0]) && !IsSpace(c[|c| - 1])
    ensures var info := ParsePlugins(software + [COLON, 32] + a + [SEMICOLON, 32] + b + [32, SEMICOLON, 32] + c);
            info.software == software && |info.plugins| == 3
            && info.plugins[0] == a && info.plugins[1] == b && info.plugins[2] == c
  {
    var sp: seq<Byte> := [32];
    var after := sp + a + [SEMICOLON] + (sp + b + sp + [SEMICOLON] + (sp + c));
    assert software + [COLON, 32] + a + [SEMICOLON, 32] + b + [32, SEMICOLON, 32] + c
        == software + [COLON] + after;
    ParsePluginsSoftware(software, after);
    ParsePluginsWithColon(software, after);
    ThreePieces(a, b, c);
    ThreeTrims(a, b, c);
    TrimBare(software);
  }

  lemma ThreePieces(a: seq<Byte>, b: seq<Byte>, c: seq<Byte>)
    requires forall k :: 0 <= k < |a| ==> a[k] != SEMICOLON
    requires forall k :: 0 <= k < |b| ==> b[k] != SEMICOLON
    requires forall k :: 0 <= k < |c| ==> c[k] != SEMICOLON
    ensures Explode([32] + a + [SEMICOLON] + ([32] + b + [32] + [SEMICOLON] + ([32] + c)), [SEMICOLON])
         == [[32] + a, [32] + b + [32], [32] + c]
  {
    PaddedWithoutByte(a, SEMICOLON);
    PaddedWithoutByte(b, SEMICOLON);
    PaddedWithoutByte(c, SEMICOLON);
    assert [32] + b + [32] == [32] + (b + [32]);
    ExplodeThree([32] + a, [32] + b + [32], [32] + c, SEMICOLON);
  }

  lemma ExplodeThree(a: seq<Byte>, b: seq<Byte>, c: seq<Byte>, d: Byte)
    requires forall k :: 0 <= k < |a| ==> a[k] != d
    requires forall k :: 0 <= k < |b| ==> b[k] != d
    requires forall k :: 0 <= k < |c| ==> c[k] != d
    ensures Explode(a + [d] + (b + [d] + c), [d]) == [a, b, c]
  {
    ExplodeWithoutByte(c, d);
    FirstByte(b, d, c);
    FirstByte(a, d, b + [d] + c);
  }

  /** Spaces around a text add no occurrence of a byte other than space. */
  lemma PaddedWithoutByte(s: seq<Byte>, b: Byte)
    requires b != 32
    requires forall k :: 0 <= k < |s| ==> s[k] != b
    ensures forall k :: 0 <= k < |[32] + s| ==> ([32] + s)[k] != b
    ensures forall k :: 0 <= k < |s + [32]| ==> (s + [32])[k] != b
    ensures forall k :: 0 <= k < |[32] + (s + [32])| ==> ([32] + (s + [32]))[k] != b
  {
  }

  lemma ThreeTrims(a: seq<Byte>, b: seq<Byte>, c: seq<Byte>)
    requires a != [] && !IsSpace(a[0]) && !IsSpace(a[|a| - 1])
    requires b != [] && !IsSpace(b[0]) && !IsSpace(b[|b| - 1])
    requires c != [] && !IsSpace(c[0]) && !IsSpace(c[|c| - 1])
    ensures var r := TrimEach([[32] + a, [32] + b + [32], [32] + c]);
            |r| == 3 && r[0] == a && r[1] == b && r[2] == c
  {
    TrimAfterSpace(a);
    TrimBetweenSpaces(b);
    TrimAfterSpace(c);
  }

  /** `trim` of a text behind one space. */
  lemma TrimAfterSpace(w: seq<Byte>)
    requires w != [] && !IsSpace(w[0]) && !IsSpace(w[|w| - 1])
    ensures Trim([32] + w) == w
  {
    TrimLeftSpaces([32], w);
    TrimRightSpaces(w, []);
    assert w + [] == w;
  }

  /** `trim` of a text between two spaces. */
  lemma TrimBetweenSpaces(w: seq<Byte>)
    requires w != [] && !IsSpace(w[0]) && !IsSpace(w[|w| - 1])
    ensures Trim([32] + w + [32]) == w
  {
    assert [32] + w + [32] == [32] + (w + [32]);
    TrimLeftSpaces([32], w + [32]);
    TrimRightSpaces(w, [32]);
  }

  /** `trim` of a text without surrounding whitespace. */
  lemma TrimBare(w: seq<Byte>)
    requires w != [] && !IsSpace(w[0]) && !IsSpace(w[|w| - 1])
    ensures Trim(w) == w
  {
    TrimLeftSpaces([], w);
    assert [] + w == w;
    TrimRightSpaces(w, []);
    assert w + [] == w;
  }
}
