/**
 * The string primitives the handlers use: Python's notion of whitespace,
 * `strip`, `lower`, `split()`, `' '.join`, `in` on strings, `split(",")`,
 * `replace(pat, "")`, and decimal rendering and reading of ids.
 */
module Text {
  import opened Common

  /** The characters for which Python's `str.isspace()` holds (and `\s` matches). */
  predicate IsSpace(c: char)
  {
    c == ' ' || ('\t' <= c <= '\r') || ('\U{001C}' <= c <= '\U{001F}') || c == '\U{0085}'
    || c == '\U{00A0}' || c == '\U{1680}' || ('\U{2000}' <= c <= '\U{200A}') || c == '\U{2028}'
    || c == '\U{2029}' || c == '\U{202F}' || c == '\U{205F}' || c == '\U{3000}'
  }

  predicate NoSpace(s: string)
  {
    forall i :: 0 <= i < |s| ==> !IsSpace(s[i])
  }

  /** Neither end of `s` is whitespace: what `strip()` returns. */
  predicate Stripped(s: string)
  {
    s == [] || (!IsSpace(s[0]) && !IsSpace(s[|s| - 1]))
  }

  function LStrip(s: string): (r: string)
    ensures |r| <= |s| && r == s[|s| - |r|..]
    ensures r == [] || !IsSpace(r[0])
    ensures forall i :: 0 <= i < |s| - |r| ==> IsSpace(s[i])
  {
    if s != [] && IsSpace(s[0]) then LStrip(s[1..]) else s
  }

  function RStrip(s: string): (r: string)
    ensures |r| <= |s| && r == s[..|r|]
    ensures r == [] || !IsSpace(r[|r| - 1])
    ensures forall i :: |r| <= i < |s| ==> IsSpace(s[i])
  {
    if s != [] && IsSpace(s[|s| - 1]) then RStrip(s[..|s| - 1]) else s
  }

  /** Python's `s.strip()`. */
  function Strip(s: string): (r: string)
    ensures Stripped(r)
    ensures |r| <= |s|
    ensures Stripped(s) ==> r == s
  {
    RStrip(LStrip(s))
  }

  lemma {:induction false} StripIdempotent(s: string)
    ensures Strip(Strip(s)) == Strip(s)
  {
  }

  /** A string strips to nothing exactly when it is all whitespace. */
  lemma {:induction false} BlankIsAllSpace(s: string)
    ensures Strip(s) == [] <==> forall i :: 0 <= i < |s| ==> IsSpace(s[i])
  {
    var l := LStrip(s);
    if l != [] {
      assert !IsSpace(s[|s| - |l|]);
    }
  }

  /**
   * Python's `str.lower()` on ASCII and Latin-1 letters; every other
   * character is left as it is.
   */
  function LowerChar(c: char): char
  {
    if 'A' <= c <= 'Z' || ('\U{00C0}' <= c <= '\U{00DE}' && c != '\U{00D7}') then
      (c as int + 32) as char
    else c
  }

  predicate IsUpper(c: char)
  {
    'A' <= c <= 'Z' || ('\U{00C0}' <= c <= '\U{00DE}' && c != '\U{00D7}')
  }

  function Lower(s: string): (r: string)
    ensures |r| == |s|
    ensures forall i :: 0 <= i < |s| ==> r[i] == LowerChar(s[i])
  {
    if s == [] then [] else [LowerChar(s[0])] + Lower(s[1..])
  }

  /** SQLite's `lower()`, through which `ilike` compares: ASCII capitals only. */
  function AsciiLowerChar(c: char): char
  {
    if 'A' <= c <= 'Z' then (c as int + 32) as char else c
  }

  /** `lower()` as SQLite computes it, character by character. */
  function AsciiLower(s: string): (r: string)
    ensures |r| == |s|
    ensures forall i :: 0 <= i < |s| ==> r[i] == AsciiLowerChar(s[i])
  {
    if s == [] then [] else [AsciiLowerChar(s[0])] + AsciiLower(s[1..])
  }

  /**
   * SQLite's `lower()` agrees with Python's `str.lower` on plain ASCII
   * text and leaves every non-ASCII character, capitals included, as it is.
   */
  lemma AsciiLowerAgrees(s: string)
    ensures (forall i :: 0 <= i < |s| ==> s[i] < '\U{0080}') ==> AsciiLower(s) == Lower(s)
    ensures forall i :: 0 <= i < |s| && s[i] >= '\U{0080}' ==> AsciiLower(s)[i] == s[i]
  {
  }

  /** Length of the leading run of non-space characters. */
  function WordLength(s: string): (n: nat)
    ensures n <= |s|
    ensures forall i :: 0 <= i < n ==> !IsSpace(s[i])
    ensures n == |s| || IsSpace(s[n])
  {
    if s == [] || IsSpace(s[0]) then 0 else 1 + WordLength(s[1..])
  }

  /** Python's `s.split()`: the maximal runs of non-space characters. */
  function Words(s: string): seq<string>
    decreases |s|
  {
    var t := LStrip(s);
    if t == [] then []
    else
      var n := WordLength(t);
      [t[..n]] + Words(t[n..])
  }

  /** Every word is non-empty and holds no whitespace. */
  lemma {:induction false} WordsAreWords(s: string)
    ensures forall k :: 0 <= k < |Words(s)| ==> Words(s)[k] != [] && NoSpace(Words(s)[k])
    decreases |s|
  {
    var t := LStrip(s);
    if t != [] {
      var n := WordLength(t);
      var w := t[..n];
      assert n > 0;
      assert NoSpace(w) by {
        forall i | 0 <= i < |w| ensures !IsSpace(w[i]) {
          assert w[i] == t[i];
        }
      }
      WordsAreWords(t[n..]);
      var rest := Words(t[n..]);
      assert Words(s) == [w] + rest;
      forall k | 0 <= k < |Words(s)| ensures Words(s)[k] != [] && NoSpace(Words(s)[k]) {
        if k > 0 {
          assert Words(s)[k] == rest[k - 1];
        }
      }
    }
  }

  /** `sep.join(ws)`. */
  function Join(sep: string, ws: seq<string>): string
  {
    if ws == [] then ""
    else if |ws| == 1 then ws[0]
    else ws[0] + sep + Join(sep, ws[1..])
  }

  /**
   * The only whitespace in `s` is a single ' ' between two non-space
   * characters.
   */
  predicate SingleSpaced(s: string)
  {
    forall i :: 0 <= i < |s| && IsSpace(s[i]) ==>
      s[i] == ' ' && 0 < i < |s| - 1 && !IsSpace(s[i - 1]) && !IsSpace(s[i + 1])
  }

  lemma {:induction false} JoinSingleSpaced(ws: seq<string>)
    requires forall k :: 0 <= k < |ws| ==> ws[k] != [] && NoSpace(ws[k])
    ensures SingleSpaced(Join(" ", ws))
    ensures ws != [] ==> Join(" ", ws) != []
  {
    if |ws| > 1 {
      var tail := Join(" ", ws[1..]);
      JoinSingleSpaced(ws[1..]);
      var r := ws[0] + " " + tail;
      assert r == Join(" ", ws);
      forall i | 0 <= i < |r| && IsSpace(r[i])
        ensures r[i] == ' ' && 0 < i < |r| - 1 && !IsSpace(r[i - 1]) && !IsSpace(r[i + 1])
      {
        if i < |ws[0]| {
          assert false;
        } else if i > |ws[0]| {
          assert r[i] == tail[i - |ws[0]| - 1];
          assert tail[0] == ws[1][0];
        }
      }
    }
  }

  /** `' '.join(s.split())`: whitespace runs collapse to one space, ends trimmed. */
  function CollapseSpaces(s: string): (r: string)
    ensures SingleSpaced(r)
    ensures Stripped(r)
  {
    WordsAreWords(s);
    JoinSingleSpaced(Words(s));
    Join(" ", Words(s))
  }

  predicate OccursAt(hay: string, needle: string, i: int)
  {
    0 <= i <= |hay| - |needle| && hay[i..i + |needle|] == needle
  }

  /** Python's `needle in hay` on strings. */
  predicate Contains(hay: string, needle: string)
  {
    exists i :: 0 <= i <= |hay| && OccursAt(hay, needle, i)
  }

  function ContainsFrom(hay: string, needle: string, i: nat): (b: bool)
    requires i <= |hay|
    ensures b <==> exists j :: i <= j <= |hay| && OccursAt(hay, needle, j)
    decreases |hay| - i
  {
    if i + |needle| > |hay| then false
    else if hay[i..i + |needle|] == needle then assert OccursAt(hay, needle, i); true
    else ContainsFrom(hay, needle, i + 1)
  }

  function Substring(hay: string, needle: string): (b: bool)
    ensures b <==> Contains(hay, needle)
  {
    ContainsFrom(hay, needle, 0)
  }

  predicate StartsWith(s: string, prefix: string)
  {
    |prefix| <= |s| && s[..|prefix|] == prefix
  }

  /** Python's `s.split(sep)` for a one-character separator. */
  function SplitOn(s: string, sep: char): (parts: seq<string>)
    ensures |parts| >= 1
    ensures forall k :: 0 <= k < |parts| ==> sep !in parts[k]
    ensures forall k, i :: 0 <= k < |parts| && 0 <= i < |parts[k]| ==> parts[k][i] in s
  {
    if s == [] then [""]
    else
      var rest := SplitOn(s[1..], sep);
      if s[0] == sep then [""] + rest
      else [[s[0]] + rest[0]] + rest[1..]
  }

  function DigitChar(d: nat): char
    requires d < 10
  {
    ['0', '1', '2', '3', '4', '5', '6', '7', '8', '9'][d]
  }

  /** Decimal rendering of a natural number, as `str(n)`. */
  function NatToString(n: nat): (s: string)
    ensures s != []
    ensures forall i :: 0 <= i < |s| ==> '0' <= s[i] <= '9'
  {
    if n < 10 then [DigitChar(n)] else NatToString(n / 10) + [DigitChar(n % 10)]
  }

  predicate IsDigit(c: char)
  {
    '0' <= c <= '9'
  }

  function DigitValue(c: char): nat
    requires IsDigit(c)
  {
    c as int - '0' as int
  }

  lemma DigitCharValue(d: nat)
    requires d < 10
    ensures IsDigit(DigitChar(d)) && DigitValue(DigitChar(d)) == d
  {
  }

  /** The number a string of decimal digits writes, most significant first. */
  function DecimalValue(ds: string): nat
    requires forall i :: 0 <= i < |ds| ==> IsDigit(ds[i])
  {
    if ds == [] then 0 else DecimalValue(ds[..|ds| - 1]) * 10 + DigitValue(ds[|ds| - 1])
  }

  /** Digits, with single underscores allowed between two digits: the body `int()` reads. */
  predicate Grouped(b: string)
  {
    b != [] && IsDigit(b[0]) && IsDigit(b[|b| - 1])
    && (forall i :: 0 <= i < |b| ==> IsDigit(b[i]) || b[i] == '_')
    && (forall i :: 0 <= i < |b| - 1 ==> b[i] == '_' ==> b[i + 1] != '_')
  }

  /** The digits of `b`, underscores dropped. */
  function DigitsOnly(b: string): (r: string)
    requires forall i :: 0 <= i < |b| ==> IsDigit(b[i]) || b[i] == '_'
    ensures forall i :: 0 <= i < |r| ==> IsDigit(r[i])
  {
    if b == [] then []
    else DigitsOnly(b[..|b| - 1]) + (if b[|b| - 1] == '_' then [] else [b[|b| - 1]])
  }

  /**
   * Python's `int(s)` on text: surrounding whitespace, an optional sign
   * and grouped decimal digits; None where `int` raises `ValueError`.
   */
  function ParseInt(s: string): (r: Option<int>)
  {
    var t := Strip(s);
    var signed := t != [] && (t[0] == '-' || t[0] == '+');
    var body := if signed then t[1..] else t;
    if !Grouped(body) then None
    else
      var v: int := DecimalValue(DigitsOnly(body));
      Some(if signed && t[0] == '-' then -v else v)
  }

  lemma {:induction false} DigitsOnlyPlain(b: string)
    requires forall i :: 0 <= i < |b| ==> IsDigit(b[i])
    ensures DigitsOnly(b) == b
  {
    if b != [] {
      DigitsOnlyPlain(b[..|b| - 1]);
      assert b == b[..|b| - 1] + [b[|b| - 1]];
    }
  }

  lemma {:induction false} DecimalOfNat(n: nat)
    ensures DecimalValue(NatToString(n)) == n
  {
    if n < 10 {
      DigitCharValue(n);
      assert NatToString(n)[..0] == [];
    } else {
      DecimalOfNat(n / 10);
      DigitCharValue(n % 10);
      var s := NatToString(n / 10);
      assert (s + [DigitChar(n % 10)])[..|s|] == s;
    }
  }

  /** A plain run of decimal digits reads as the number it writes. */
  lemma PlainDigits(s: string)
    requires s != [] && forall i :: 0 <= i < |s| ==> IsDigit(s[i])
    ensures ParseInt(s) == Some(DecimalValue(s) as int)
  {
    DigitNotSpace(s[0]);
    DigitNotSpace(s[|s| - 1]);
    assert Grouped(s);
    ParseGroupedBody(s);
    DigitsOnlyPlain(s);
  }

  lemma DigitNotSpace(c: char)
    requires IsDigit(c)
    ensures !IsSpace(c)
  {
  }

  /** A stripped, unsigned, well-grouped body reads as its digits. */
  lemma ParseGroupedBody(s: string)
    requires Stripped(s) && Grouped(s) && s[0] != '-' && s[0] != '+'
    ensures ParseInt(s) == Some(DecimalValue(DigitsOnly(s)) as int)
  {
    assert Strip(s) == s;
  }

  /** `int(str(n)) == n`: reading back a rendered id gives the id. */
  lemma ParseIntOfNat(n: nat)
    ensures ParseInt(NatToString(n)) == Some(n)
  {
    PlainDigits(NatToString(n));
    DecimalOfNat(n);
  }

  /** `s.replace(pat, "")`: every occurrence of `pat`, found left to right, removed. */
  function RemoveAll(s: string, pat: string): (r: string)
    requires pat != []
    ensures |r| <= |s|
    decreases |s|
  {
    if |s| < |pat| then s
    else if s[..|pat|] == pat then RemoveAll(s[|pat|..], pat)
    else [s[0]] + RemoveAll(s[1..], pat)
  }

  /** An occurrence at the front is removed. */
  lemma RemoveAllLeading(pat: string, y: string)
    requires pat != []
    ensures RemoveAll(pat + y, pat) == RemoveAll(y, pat)
  {
    assert (pat + y)[..|pat|] == pat && (pat + y)[|pat|..] == y;
  }

  /** Text without the pattern's first character is kept as it is, whatever follows. */
  lemma {:induction false} RemoveAllKeeps(x: string, y: string, pat: string)
    requires pat != [] && pat[0] !in x
    ensures RemoveAll(x + y, pat) == x + RemoveAll(y, pat)
    decreases |x|
  {
    var s := x + y;
    if x == [] {
      assert s == y;
    } else if |s| < |pat| {
      assert RemoveAll(y, pat) == y;
    } else {
      assert s[..|pat|][0] == x[0] != pat[0];
      assert s[1..] == x[1..] + y;
      assert x == [x[0]] + x[1..];
      assert pat[0] !in x[1..];
      RemoveAllKeeps(x[1..], y, pat);
    }
  }
}
