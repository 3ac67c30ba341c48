/**
 * The PHP string functions the query client relies on, on byte strings:
 * `substr` (in the forms the client uses), `explode` with and without a
 * limit, `trim` with its default character set, `intval` on decimal
 * numerals, and PHP's truthiness of a string.
 */
module Strings {
  import opened Bytes

  // ---------------------------------------------------------------- substr

  /** `substr(s, start)`: the bytes from `start` on, "" past the end. */
  function From(s: seq<Byte>, start: nat): (r: seq<Byte>)
    ensures start <= |s| ==> s == s[..start] + r
    ensures start > |s| ==> r == []
  {
    if start <= |s| then s[start..] else []
  }

  /** `substr(s, 0, -n)`: all but the last `n` bytes, "" when there are fewer. */
  function ChopEnd(s: seq<Byte>, n: nat): (r: seq<Byte>)
    ensures n <= |s| ==> s == r + s[|s| - n..]
    ensures n > |s| ==> r == []
  {
    if n <= |s| then s[..|s| - n] else []
  }

  // ------------------------------------------------------ searching, explode

  /** The delimiter `d` occurs in `s` starting at index `i`. */
  predicate OccursAt(s: seq<Byte>, d: seq<Byte>, i: nat)
  {
    i + |d| <= |s| && s[i..i + |d|] == d
  }

  /** `d` occurs nowhere in `s`. */
  ghost predicate Free(s: seq<Byte>, d: seq<Byte>)
  {
    forall j: nat :: !OccursAt(s, d, j)
  }

  /** The first occurrence of `d` in `s` at or after index `i`. */
  function IndexFrom(s: seq<Byte>, d: seq<Byte>, i: nat): (r: Option<nat>)
    requires |d| > 0
    ensures r.Some? ==> i <= r.value && OccursAt(s, d, r.value)
    ensures r.Some? ==> forall j: nat :: i <= j < r.value ==> !OccursAt(s, d, j)
    ensures r.None? ==> forall j: nat :: i <= j ==> !OccursAt(s, d, j)
    decreases |s| - i
  {
    if i + |d| > |s| then None
    else if s[i..i + |d|] == d then Some(i)
    else IndexFrom(s, d, i + 1)
  }

  /** `strpos(s, d)`: the first occurrence of `d` in `s`. */
  function IndexOf(s: seq<Byte>, d: seq<Byte>): (r: Option<nat>)
    requires |d| > 0
  {
    IndexFrom(s, d, 0)
  }

  /** `implode(d, parts)`, the inverse of `explode`. */
  function Join(parts: seq<seq<Byte>>, d: seq<Byte>): (r: seq<Byte>)
  {
    if parts == [] then []
    else if |parts| == 1 then parts[0]
    else parts[0] + d + Join(parts[1..], d)
  }

  /** `explode(d, s)`: the pieces of `s` between the occurrences of `d`. */
  function Explode(s: seq<Byte>, d: seq<Byte>): (parts: seq<seq<Byte>>)
    requires |d| > 0
    ensures |parts| >= 1
    ensures Join(parts, d) == s
    ensures forall k :: 0 <= k < |parts| ==> Free(parts[k], d)
    decreases |s|
  {
    match IndexOf(s, d)
    case None => [s]
    case Some(i) =>
      PieceBeforeFirstIsFree(s, d, i);
      [s[..i]] + Explode(s[i + |d|..], d)
  }

  /** `explode(d, s, limit)` for a positive limit: at most `limit` pieces,
      the last one holding the rest of `s` unsplit. */
  function ExplodeLimit(s: seq<Byte>, d: seq<Byte>, limit: nat): (parts: seq<seq<Byte>>)
    requires |d| > 0 && limit >= 1
    ensures 1 <= |parts| <= limit
    ensures Join(parts, d) == s
    ensures forall k :: 0 <= k < |parts| - 1 ==> Free(parts[k], d)
    ensures |parts| < limit ==> Free(parts[|parts| - 1], d)
    decreases limit
  {
    if limit == 1 then [s]
    else match IndexOf(s, d)
      case None => [s]
      case Some(i) =>
        PieceBeforeFirstIsFree(s, d, i);
        [s[..i]] + ExplodeLimit(s[i + |d|..], d, limit - 1)
  }

  /** The text before the first occurrence of `d` does not contain `d`. */
  lemma PieceBeforeFirstIsFree(s: seq<Byte>, d: seq<Byte>, i: nat)
    requires |d| > 0 && IndexOf(s, d) == Some(i)
    ensures Free(s[..i], d)
    ensures s == s[..i] + d + s[i + |d|..]
  {
    forall j: nat ensures !OccursAt(s[..i], d, j) {
      if OccursAt(s[..i], d, j) {
        assert s[..i][j..j + |d|] == s[j..j + |d|];
        assert OccursAt(s, d, j);
      }
    }
  }

  /** When `d` first occurs at index `i`, the first piece is the text before
      it and the rest is split independently. */
  lemma FirstOccurrence(s: seq<Byte>, d: seq<Byte>, i: nat)
    requires |d| > 0 && OccursAt(s, d, i)
    requires forall j: nat :: j < i ==> !OccursAt(s, d, j)
    ensures IndexOf(s, d) == Some(i)
    ensures Explode(s, d) == [s[..i]] + Explode(s[i + |d|..], d)
  {
  }

  /** A text without byte `b` has no occurrence of the one-byte `[b]`. */
  lemma ByteFree(s: seq<Byte>, b: Byte)
    requires forall k :: 0 <= k < |s| ==> s[k] != b
    ensures Free(s, [b])
  {
    forall j: nat ensures !OccursAt(s, [b], j) {
      if j < |s| { assert s[j..j + 1] == [s[j]]; }
    }
  }

  /** A text in which the delimiter does not occur is one piece. */
  lemma ExplodeFree(s: seq<Byte>, d: seq<Byte>)
    requires |d| > 0 && Free(s, d)
    ensures Explode(s, d) == [s]
  {
    assert IndexOf(s, d).None?;
  }

  /** A prefix without occurrences of the first delimiter byte cannot hold
      the start of an occurrence. */
  lemma ExplodeAfterPrefix(p: seq<Byte>, s: seq<Byte>, d: seq<Byte>)
    requires |d| > 0
    requires forall k :: 0 <= k < |p| ==> p[k] != d[0]
    ensures Explode(p + s, d)[0] == p + Explode(s, d)[0]
    ensures Explode(p + s, d)[1..] == Explode(s, d)[1..]
  {
    var t := p + s;
    match IndexOf(s, d)
    case None =>
      PrefixOccurrences(p, s, d, |t|);
      ExplodeFree(t, d);
      ExplodeFree(s, d);
    case Some(i) =>
      PrefixOccurrences(p, s, d, |p| + i);
      ShiftedOccurrence(p, s, d, i);
      FirstOccurrence(t, d, |p| + i);
      FirstOccurrence(s, d, i);
      assert t[..|p| + i] == p + s[..i];
      assert t[|p| + i + |d|..] == s[i + |d|..];
  }

  /** Below `n`, `d` occurs in `p + s` only where it occurs in `s` shifted
      by `|p|`, when `p` holds no first byte of `d`. */
  lemma PrefixOccurrences(p: seq<Byte>, s: seq<Byte>, d: seq<Byte>, n: nat)
    requires |d| > 0
    requires forall k :: 0 <= k < |p| ==> p[k] != d[0]
    requires forall j: nat :: j + |p| < n ==> !OccursAt(s, d, j)
    ensures forall j: nat :: j < n ==> !OccursAt(p + s, d, j)
  {
    var t := p + s;
    forall j: nat | j < n ensures !OccursAt(t, d, j) {
      if j < |p| {
        assert t[j] == p[j];
      } else {
        ShiftedOccurrence(p, s, d, j - |p|);
      }
    }
  }

  /** `d` occurs in `p + s` at `|p| + j` exactly when it occurs in `s` at `j`. */
  lemma ShiftedOccurrence(p: seq<Byte>, s: seq<Byte>, d: seq<Byte>, j: nat)
    ensures OccursAt(p + s, d, |p| + j) <==> OccursAt(s, d, j)
  {
    if |p| + j + |d| <= |p + s| {
      assert (p + s)[|p| + j..|p| + j + |d|] == s[j..j + |d|];
    }
  }

  // ------------------------------------------------------------------- trim

  /** The bytes PHP's `trim` strips by default: " \t\n\r\0\x0B". */
  predicate IsSpace(b: Byte)
  {
    b == 32 || b == 9 || b == 10 || b == 13 || b == 0 || b == 11
  }

  function TrimLeft(s: seq<Byte>): (r: seq<Byte>)
    ensures |r| <= |s| && r == s[|s| - |r|..]
    ensures r == [] || !IsSpace(r[0])
    ensures forall k :: 0 <= k < |s| - |r| ==> IsSpace(s[k])
  {
    if s != [] && IsSpace(s[0]) then TrimLeft(s[1..]) else s
  }

  function TrimRight(s: seq<Byte>): (r: seq<Byte>)
    ensures |r| <= |s| && r == s[..|r|]
    ensures r == [] || !IsSpace(r[|r| - 1])
    ensures forall k :: |r| <= k < |s| ==> IsSpace(s[k])
  {
    if s != [] && IsSpace(s[|s| - 1]) then TrimRight(s[..|s| - 1]) else s
  }

  /** `trim(s)`: `s` without its leading and trailing whitespace. */
  function Trim(s: seq<Byte>): (r: seq<Byte>)
  {
    TrimRight(TrimLeft(s))
  }

  lemma TrimIsInfix(s: seq<Byte>) returns (lo: nat, hi: nat)
    ensures lo <= hi <= |s| && Trim(s) == s[lo..hi]
    ensures Trim(s) == [] || (!IsSpace(Trim(s)[0]) && !IsSpace(Trim(s)[|Trim(s)| - 1]))
    ensures forall k :: 0 <= k < lo ==> IsSpace(s[k])
    ensures forall k :: hi <= k < |s| ==> IsSpace(s[k])
  {
    var l := TrimLeft(s);
    var t := TrimRight(l);
    lo := |s| - |l|;
    hi := lo + |t|;
    TrimInfixHelper(s, l, t, lo);
  }

  lemma TrimInfixHelper(s: seq<Byte>, l: seq<Byte>, t: seq<Byte>, lo: nat)
    requires lo <= |s| && l == s[lo..] && |t| <= |l| && t == l[..|t|]
    requires forall k :: |t| <= k < |l| ==> IsSpace(l[k])
    ensures t == s[lo..lo + |t|]
    ensures forall k :: lo + |t| <= k < |s| ==> IsSpace(s[k])
  {
    forall k | lo + |t| <= k < |s| ensures IsSpace(s[k]) {
      assert s[k] == l[k - lo];
    }
  }

  lemma {:induction false} TrimLeftSpaces(l: seq<Byte>, t: seq<Byte>)
    requires forall k :: 0 <= k < |l| ==> IsSpace(l[k])
    requires t == [] || !IsSpace(t[0])
    ensures TrimLeft(l + t) == t
  {
    if l == [] {
      assert l + t == t;
    } else {
      assert (l + t)[0] == l[0] && (l + t)[1..] == l[1..] + t;
      TrimLeftSpaces(l[1..], t);
    }
  }

  lemma {:induction false} TrimRightSpaces(t: seq<Byte>, r: seq<Byte>)
    requires forall k :: 0 <= k < |r| ==> IsSpace(r[k])
    requires t == [] || !IsSpace(t[|t| - 1])
    ensures TrimRight(t + r) == t
  {
    if r == [] {
      assert t + r == t;
    } else {
      var s := t + r;
      assert s[|s| - 1] == r[|r| - 1] && s[..|s| - 1] == t + r[..|r| - 1];
      TrimRightSpaces(t, r[..|r| - 1]);
    }
  }

  /** `trim` removes exactly the whitespace around a text that neither
      starts nor ends with whitespace. */
  lemma TrimPadded(l: seq<Byte>, w: seq<Byte>, r: seq<Byte>)
    requires forall k :: 0 <= k < |l| ==> IsSpace(l[k])
    requires forall k :: 0 <= k < |r| ==> IsSpace(r[k])
    requires w != [] && !IsSpace(w[0]) && !IsSpace(w[|w| - 1])
    ensures Trim(l + w + r) == w
  {
    assert l + w + r == l + (w + r);
    TrimLeftSpaces(l, w + r);
    TrimRightSpaces(w, r);
  }

  /** Trimming twice trims nothing more. */
  lemma TrimIdempotent(s: seq<Byte>)
    ensures Trim(Trim(s)) == Trim(s)
  {
  }

  // ---------------------------------------------------------------- intval

  predicate IsDigit(b: Byte)
  {
    48 <= b <= 57
  }

  /** The longest run of decimal digits at the start of `s`. */
  function LeadingDigits(s: seq<Byte>): (r: seq<Byte>)
    ensures |r| <= |s| && r == s[..|r|]
    ensures forall k :: 0 <= k < |r| ==> IsDigit(r[k])
    ensures |r| < |s| ==> !IsDigit(s[|r|])
  {
    if s != [] && IsDigit(s[0]) then [s[0]] + LeadingDigits(s[1..]) else []
  }

  /** The value of a run of decimal digits. */
  function DigitsValue(ds: seq<Byte>): (r: nat)
    requires forall k :: 0 <= k < |ds| ==> IsDigit(ds[k])
  {
    if ds == [] then 0
    else
      assert IsDigit(ds[|ds| - 1]);
      10 * DigitsValue(ds[..|ds| - 1]) + (ds[|ds| - 1] as int - 48)
  }

  /** `intval(s)` on an optional sign followed by decimal digits; whatever
      follows the digits is ignored and no digits at all give 0. */
  function IntVal(s: seq<Byte>): (r: int)
  {
    if s != [] && s[0] == 45 then -(DigitsValue(LeadingDigits(s[1..])) as int)
    else if s != [] && s[0] == 43 then DigitsValue(LeadingDigits(s[1..]))
    else DigitsValue(LeadingDigits(s))
  }

  /** The decimal digits of `n`, without leading zeros. */
  function Digits(n: nat): (ds: seq<Byte>)
    ensures |ds| >= 1
    ensures forall k :: 0 <= k < |ds| ==> IsDigit(ds[k])
  {
    if n < 10 then [48 + n] else Digits(n / 10) + [48 + n % 10]
  }

  /** The decimal numeral PHP prints for `n`. */
  function Decimal(n: int): (r: seq<Byte>)
  {
    if n < 0 then [45] + Digits(-n) else Digits(n)
  }

  lemma {:induction false} DigitsValueOfDigits(n: nat)
    ensures DigitsValue(Digits(n)) == n
  {
    if n >= 10 {
      DigitsValueOfDigits(n / 10);
      var ds := Digits(n);
      assert ds[..|ds| - 1] == Digits(n / 10);
    }
  }

  /** `intval` reads back every decimal numeral it is given. */
  lemma IntValOfDecimal(n: int)
    ensures IntVal(Decimal(n)) == n
  {
    var ds := if n < 0 then Digits(-n) else Digits(n);
    assert LeadingDigits(ds) == ds;
    if n < 0 {
      assert Decimal(n)[1..] == ds;
      DigitsValueOfDigits(-n);
    } else {
      DigitsValueOfDigits(n);
    }
  }

  // ----------------------------------------------------------- truthiness

  /** PHP's truthiness of a string: everything but "" and "0". */
  predicate Truthy(s: seq<Byte>)
  {
    s != [] && s != [48]
  }
}
