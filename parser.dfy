/**
 * The free-text order parser: one order line per text line, with
 * `pedido <name>` headers naming the customer of the lines that follow.
 *
 * Each regular expression of the parser is replaced by a matcher that
 * tries the same alternatives in the same order as Python's backtracking
 * engine: greedy repetitions from longest to shortest, lazy ones from
 * shortest to longest, alternations left to right, an optional group
 * first taken and then skipped. The first combination that reaches the
 * end of the pattern is the match `re.match` returns.
 */
module OrderParser {
  import opened Common
  import opened Text

  // ---------------------------------------------------------------------
  // Cleaning a line

  /** The zero-width characters removed from every line. */
  const ZeroWidth: set<char> := {'\U{200B}', '\U{200C}', '\U{200D}', '\U{2060}', '\U{FEFF}'}

  /**
   * The characters dropped from the start of a line together with
   * whitespace: five bullet signs, the three characters a mis-decoded `•`
   * turns into (`â`, `€`, `¢`), `-` and `*`.
   */
  const Bullets: set<char> :=
    {'\U{2022}', '\U{2023}', '\U{25E6}', '\U{2043}', '\U{2219}', '\U{00E2}', '\U{20AC}', '\U{00A2}', '-', '*'}

  predicate NoZeroWidth(s: string)
  {
    forall i :: 0 <= i < |s| ==> s[i] !in ZeroWidth
  }

  function DropZeroWidth(s: string): (r: string)
    ensures NoZeroWidth(r)
    ensures NoZeroWidth(s) ==> r == s
  {
    if s == [] then []
    else (if s[0] in ZeroWidth then [] else [s[0]]) + DropZeroWidth(s[1..])
  }

  /** Drops the leading run of bullets and whitespace. */
  function DropBullets(s: string): (r: string)
    ensures |r| <= |s| && r == s[|s| - |r|..]
    ensures r == [] || (r[0] !in Bullets && !IsSpace(r[0]))
  {
    if s != [] && (s[0] in Bullets || IsSpace(s[0])) then DropBullets(s[1..]) else s
  }

  /** `strip()` keeps a string free of zero-width characters. */
  lemma StripNoZeroWidth(s: string)
    requires NoZeroWidth(s)
    ensures NoZeroWidth(Strip(s))
  {
    var l := LStrip(s);
    var r := RStrip(l);
    forall i | 0 <= i < |r| ensures r[i] !in ZeroWidth {
      assert r[i] == l[i] == s[|s| - |l| + i];
    }
  }

  /** `strip()` of a string that starts with no whitespace starts where it does. */
  lemma StripKeepsStart(s: string)
    requires s != [] && !IsSpace(s[0])
    ensures Strip(s) == [] || Strip(s)[0] == s[0]
  {
    assert LStrip(s) == s;
  }

  lemma SuffixNoZeroWidth(s: string, n: nat)
    requires NoZeroWidth(s) && n <= |s|
    ensures NoZeroWidth(s[n..])
  {
    forall i | 0 <= i < |s| - n ensures s[n..][i] !in ZeroWidth {
      assert s[n..][i] == s[n + i];
    }
  }

  lemma DropBulletsNoZeroWidth(s: string)
    requires NoZeroWidth(s)
    ensures NoZeroWidth(DropBullets(s))
  {
    SuffixNoZeroWidth(s, |s| - |DropBullets(s)|);
  }

  /**
   * `_clean_line`: the zero-width characters removed, then whitespace
   * and bullets trimmed from the start and whitespace from the end.
   */
  function CleanLine(text: string): (r: string)
    ensures Stripped(r) && NoZeroWidth(r)
    ensures r == [] || r[0] !in Bullets
  {
    var d := DropZeroWidth(text);
    var a := Strip(d);
    var b := DropBullets(a);
    StripNoZeroWidth(d);
    DropBulletsNoZeroWidth(a);
    StripNoZeroWidth(b);
    if b != [] then StripKeepsStart(b); Strip(b) else Strip(b)
  }

  /** Cleaning a clean line changes nothing. */
  lemma {:induction false} CleanLineIdempotent(text: string)
    ensures CleanLine(CleanLine(text)) == CleanLine(text)
  {
    var r := CleanLine(text);
    assert DropZeroWidth(r) == r;
    assert Strip(r) == r;
    assert DropBullets(r) == r;
  }

  // ---------------------------------------------------------------------
  // Notes in parentheses

  /** The first index at or after `from` holding `c`. */
  function IndexFrom(s: string, c: char, from: nat): (r: Option<nat>)
    ensures r.None? ==> forall i :: from <= i < |s| ==> s[i] != c
    ensures r.Some? ==> from <= r.value < |s| && s[r.value] == c && forall i :: from <= i < r.value ==> s[i] != c
    decreases |s| - from
  {
    if from >= |s| then None
    else if s[from] == c then Some(from)
    else IndexFrom(s, c, from + 1)
  }

  /**
   * `_extract_paren_notes`: the first `(` that some `)` follows opens the
   * note, the first `)` after it closes it; the note is cut out of the
   * text and both are stripped.
   */
  function ExtractParenNotes(text: string): (string, string)
  {
    var open := IndexFrom(text, '(', 0);
    var close := if open.None? then None else IndexFrom(text, ')', open.value + 1);
    if close.None? then (Strip(text), "")
    else CutNote(text, open.value, close.value)
  }

  /** The text with `text[i..j + 1]` cut out, and the note between, both stripped. */
  function CutNote(text: string, i: nat, j: nat): (string, string)
    requires i < j < |text|
  {
    (Strip(text[..i] + text[j + 1..]), Strip(text[i + 1..j]))
  }

  /** Without a `(` that some `)` follows, the text comes back stripped with no note. */
  lemma ExtractParenNotesNone(text: string)
    requires forall i, j :: 0 <= i < j < |text| && text[i] == '(' ==> text[j] != ')'
    ensures ExtractParenNotes(text) == (Strip(text), "")
  {
    var open := IndexFrom(text, '(', 0);
    if open.Some? {
      var o := open.value;
      assert forall j :: o < j < |text| ==> text[j] != ')';
    }
  }

  /**
   * With `(` at `i` the first one, and `)` at `j` the first after it, the
   * note is what lies between them, cut out of the text; both stripped.
   */
  lemma ExtractParenNotesFirst(text: string, i: nat, j: nat)
    requires i < j < |text| && text[i] == '(' && text[j] == ')'
    requires forall k :: 0 <= k < i ==> text[k] != '('
    requires forall k :: i < k < j ==> text[k] != ')'
    ensures ExtractParenNotes(text) == CutNote(text, i, j)
  {
    IndexFromFirst(text, '(', 0, i);
    IndexFromFirst(text, ')', i + 1, j);
    ExtractAt(text, i, j);
  }

  lemma ExtractAt(text: string, i: nat, j: nat)
    requires i < j < |text|
    requires IndexFrom(text, '(', 0) == Some(i) && IndexFrom(text, ')', i + 1) == Some(j)
    ensures ExtractParenNotes(text) == CutNote(text, i, j)
  {
    var open := IndexFrom(text, '(', 0);
    var close := if open.None? then None else IndexFrom(text, ')', open.value + 1);
    assert close == Some(j);
  }

  lemma {:induction false} IndexFromFirst(s: string, c: char, from: nat, i: nat)
    requires from <= i < |s| && s[i] == c
    requires forall k :: from <= k < i ==> s[k] != c
    ensures IndexFrom(s, c, from) == Some(i)
    decreases i - from
  {
    if from < i {
      IndexFromFirst(s, c, from + 1, i);
    }
  }

  // ---------------------------------------------------------------------
  // Units and numbers

  /** The units a parsed line ends up with. */
  const Units: set<string> := {"kg", "unit", "g"}

  /** `UNIT_SYNONYMS`. */
  function Synonym(u: string): (r: Option<string>)
    ensures r.Some? ==> r.value in Units
  {
    if u in {"k", "kg", "kilo", "kilos"} then Some("kg")
    else if u in {"u", "uni", "unidad", "unidades", "unit"} then Some("unit")
    else if u in {"gr", "g"} then Some("g")
    else None
  }

  /** `rstrip('.')`. */
  function RStripDots(s: string): (r: string)
    ensures |r| <= |s| && r == s[..|r|]
    ensures r == [] || r[|r| - 1] != '.'
    ensures forall i :: |r| <= i < |s| ==> s[i] == '.'
  {
    if s != [] && s[|s| - 1] == '.' then RStripDots(s[..|s| - 1]) else s
  }

  /** The token `_norm_unit` looks up: stripped, lower-cased, trailing dots dropped. */
  function UnitKey(unit: string): string
  {
    RStripDots(Lower(Strip(unit)))
  }

  /** `_norm_unit`, a missing unit being "": "kg" by default, synonyms mapped, other tokens kept. */
  function NormUnit(unit: string): (r: string)
  {
    if unit == "" then "kg"
    else if Synonym(UnitKey(unit)).Some? then Synonym(UnitKey(unit)).value
    else UnitKey(unit)
  }

  /** A string without whitespace strips to itself. */
  lemma StripNoSpace(s: string)
    requires NoSpace(s)
    ensures Strip(s) == s
  {
    if s != [] {
      assert !IsSpace(s[0]) && !IsSpace(s[|s| - 1]);
    }
  }

  /** Lower-casing never turns a character into whitespace or out of it. */
  lemma LowerNoSpace(s: string)
    requires NoSpace(Lower(s))
    ensures NoSpace(s)
  {
    forall i | 0 <= i < |s| ensures !IsSpace(s[i]) {
      assert Lower(s)[i] == LowerChar(s[i]);
    }
  }

  /** A synonym followed by dots holds no whitespace. */
  lemma SynonymNoSpace(word: string, dots: nat)
    requires Synonym(word).Some?
    ensures NoSpace(word + Dots(dots)) && word != [] && word[|word| - 1] != '.'
  {
    var t := word + Dots(dots);
    forall i | 0 <= i < |t| ensures !IsSpace(t[i]) {
      if i >= |word| {
        assert t[i] == Dots(dots)[i - |word|];
      }
    }
  }

  /**
   * A unit that is a synonym in any letter case, with trailing dots, is
   * the unit it stands for.
   */
  lemma {:induction false} NormUnitExact(unit: string, word: string, dots: nat)
    requires Synonym(word).Some? && Lower(unit) == word + Dots(dots)
    ensures NormUnit(unit) == Synonym(word).value
  {
    SynonymNoSpace(word, dots);
    LowerNoSpace(unit);
    StripNoSpace(unit);
    DotsTail(word, dots);
  }

  function Dots(n: nat): (r: string)
    ensures |r| == n && forall i :: 0 <= i < n ==> r[i] == '.'
  {
    if n == 0 then "" else Dots(n - 1) + "."
  }

  lemma {:induction false} DotsTail(word: string, n: nat)
    requires word == [] || word[|word| - 1] != '.'
    ensures RStripDots(word + Dots(n)) == word
  {
    if n > 0 {
      assert (word + Dots(n))[..|word| + n - 1] == word + Dots(n - 1);
      DotsTail(word, n - 1);
    }
  }

  predicate IsDigit(c: char)
  {
    '0' <= c <= '9'
  }

  predicate AllDigits(s: string)
  {
    forall i :: 0 <= i < |s| ==> IsDigit(s[i])
  }

  /** Length of the run of digits starting at `i`. */
  function DigitRun(s: string, i: nat): (n: nat)
    ensures i + n <= |s| || n == 0
    ensures forall k :: i <= k < i + n ==> IsDigit(s[k])
    ensures i + n < |s| ==> !IsDigit(s[i + n])
    decreases |s| - i
  {
    if i < |s| && IsDigit(s[i]) then 1 + DigitRun(s, i + 1) else 0
  }

  /** Every character of `s[lo..hi]` is a digit. */
  predicate DigitsIn(s: string, lo: nat, hi: nat)
    requires hi <= |s|
  {
    forall i :: lo <= i < hi ==> IsDigit(s[i])
  }

  lemma {:induction false} DigitRunAll(s: string, i: nat)
    requires i <= |s| && DigitsIn(s, i, |s|)
    ensures DigitRun(s, i) == |s| - i
    decreases |s| - i
  {
    if i < |s| {
      DigitRunAll(s, i + 1);
    }
  }

  /** The value of a string of decimal digits. */
  function DigitsValue(ds: string): (v: real)
    requires AllDigits(ds)
    ensures v >= 0.0
  {
    if ds == [] then 0.0
    else DigitsValue(ds[..|ds| - 1]) * 10.0 + (ds[|ds| - 1] as int - '0' as int) as real
  }

  function Pow10(n: nat): (p: real)
    ensures p >= 1.0
  {
    if n == 0 then 1.0 else 10.0 * Pow10(n - 1)
  }

  function Signed(neg: bool, v: real): real
  {
    if neg then -v else v
  }

  /** Digits with an optional fractional part; either side of the point may be empty, not both. */
  function ParseUnsigned(body: string): (r: Option<real>)
    ensures r.Some? ==> r.value >= 0.0
  {
    var a := DigitRun(body, 0);
    if a == |body| then
      if a == 0 then None else Some(DigitsValue(body))
    else if body[a] == '.' && a + 1 + DigitRun(body, a + 1) == |body| && |body| > 1 then
      Some(DigitsValue(body[..a]) + DigitsValue(body[a + 1..]) / Pow10(|body| - a - 1))
    else None
  }

  /** Python's `float()` on decimal numerals: surrounding whitespace and an optional sign allowed. */
  function ParseDecimal(s: string): Option<real>
  {
    var t := Strip(s);
    if |t| > 0 && (t[0] == '-' || t[0] == '+') then
      var v := ParseUnsigned(t[1..]);
      if v.Some? then Some(Signed(t[0] == '-', v.value)) else None
    else ParseUnsigned(t)
  }

  function CommaToPoint(s: string): (r: string)
    ensures |r| == |s|
    ensures forall i :: 0 <= i < |s| ==> r[i] == (if s[i] == ',' then '.' else s[i])
  {
    if s == [] then [] else [if s[0] == ',' then '.' else s[0]] + CommaToPoint(s[1..])
  }

  /** `_to_float`: a comma is a decimal point; what does not parse is 1.0. */
  function ToFloat(s: string): real
  {
    var v := ParseDecimal(CommaToPoint(s));
    if v.Some? then v.value else 1.0
  }

  /** `[0-9]+(?:[\.,][0-9]+)?`: the quantities the line patterns capture. */
  predicate Numeral(t: string)
  {
    (|t| > 0 && DigitsIn(t, 0, |t|))
    || exists k :: 0 < k < |t| - 1 && (t[k] == '.' || t[k] == ',') && DigitsIn(t, 0, k) && DigitsIn(t, k + 1, |t|)
  }

  /**
   * A captured quantity always parses, so the fallback 1.0 never applies
   * to it, and its value is never negative.
   */
  lemma {:induction false} NumeralValue(t: string)
    requires Numeral(t)
    ensures ParseDecimal(CommaToPoint(t)).Some?
    ensures ToFloat(t) >= 0.0
  {
    var u := CommaToPoint(t);
    if |t| > 0 && DigitsIn(t, 0, |t|) {
      assert DigitsIn(u, 0, |u|) by {
        forall i | 0 <= i < |u| ensures IsDigit(u[i]) {
          assert IsDigit(t[i]);
        }
      }
      UnsignedDecimal(u);
      DigitRunAll(u, 0);
    } else {
      var k :| 0 < k < |t| - 1 && (t[k] == '.' || t[k] == ',') && DigitsIn(t, 0, k) && DigitsIn(t, k + 1, |t|);
      assert DigitsIn(u, 0, k) && DigitsIn(u, k + 1, |u|) by {
        forall i | 0 <= i < |u| && i != k ensures IsDigit(u[i]) {
          assert IsDigit(t[i]);
        }
      }
      UnsignedDecimal(u);
      PointNumeral(u, k);
    }
  }

  /** A string that starts and ends with a digit is parsed with no sign and no whitespace. */
  lemma UnsignedDecimal(u: string)
    requires |u| > 0 && IsDigit(u[0]) && IsDigit(u[|u| - 1])
    ensures ParseDecimal(u) == ParseUnsigned(u)
  {
    DigitNotSpace(u[0]);
    DigitNotSpace(u[|u| - 1]);
    assert Strip(u) == u;
  }

  lemma PointNumeral(u: string, k: nat)
    requires 0 < k < |u| - 1 && u[k] == '.' && DigitsIn(u, 0, k) && DigitsIn(u, k + 1, |u|)
    ensures ParseUnsigned(u).Some?
  {
    DigitRunUpTo(u, 0, k);
    DigitRunAll(u, k + 1);
  }

  lemma {:induction false} DigitRunUpTo(s: string, i: nat, k: nat)
    requires i <= k < |s| && !IsDigit(s[k]) && forall j :: i <= j < k ==> IsDigit(s[j])
    ensures DigitRun(s, i) == k - i
    decreases k - i
  {
    if i < k {
      DigitRunUpTo(s, i + 1, k);
    }
  }

  // ---------------------------------------------------------------------
  // The matching engine

  /** Positions from `hi` down to `lo`: the order a greedy repetition backs off in. */
  function Down(hi: nat, lo: nat): (r: seq<nat>)
    ensures |r| == if hi >= lo then hi - lo + 1 else 0
    ensures forall k :: 0 <= k < |r| ==> r[k] == hi - k
    decreases hi
  {
    if hi < lo then [] else [hi] + (if hi == 0 then [] else Down(hi - 1, lo))
  }

  /** Positions from `lo` up to `hi`: the order a lazy repetition grows in. */
  function Up(lo: nat, hi: nat): (r: seq<nat>)
    ensures |r| == if hi >= lo then hi - lo + 1 else 0
    ensures forall k :: 0 <= k < |r| ==> r[k] == lo + k
    decreases hi - lo
  {
    if hi < lo then [] else [lo] + Up(lo + 1, hi)
  }

  /** `s[i..j]`, or "" when the bounds do not fit. */
  function Slice(s: string, i: nat, j: nat): string
  {
    if i <= j <= |s| then s[i..j] else ""
  }

  /** Length of the whitespace run starting at `i`. */
  function SpaceRun(s: string, i: nat): (n: nat)
    ensures i + n <= |s| || n == 0
    ensures forall k :: i <= k < i + n ==> IsSpace(s[k])
    decreases |s| - i
  {
    if i < |s| && IsSpace(s[i]) then 1 + SpaceRun(s, i + 1) else 0
  }

  /** `\s*` at `i`: where it may end, longest first. */
  function Star(s: string, i: nat): (r: seq<nat>)
    ensures |r| > 0 && r[|r| - 1] == i
  {
    Down(i + SpaceRun(s, i), i)
  }

  /** `\s+` at `i`: where it may end, longest first. */
  function Plus(s: string, i: nat): (r: seq<nat>)
    ensures forall k :: 0 <= k < |r| ==> i < r[k] <= |s| && IsSpace(s[i])
  {
    if SpaceRun(s, i) == 0 then [] else Down(i + SpaceRun(s, i), i + 1)
  }

  /** Length of the run of characters other than `\n` starting at `i`: how far `.` reaches. */
  function LineRun(s: string, i: nat): (n: nat)
    ensures i + n <= |s| || n == 0
    ensures forall k :: i <= k < i + n ==> s[k] != '\n'
    ensures i + n < |s| ==> s[i + n] == '\n'
    decreases |s| - i
  {
    if i < |s| && s[i] != '\n' then 1 + LineRun(s, i + 1) else 0
  }

  /** `$`: the end of the text, or just before a final newline. */
  predicate AtEnd(s: string, p: nat)
  {
    p == |s| || (p + 1 == |s| && s[p] == '\n')
  }

  /** `(.+)$` at `p`: where the group ends, if it matches. */
  function RestEnd(s: string, p: nat): (r: Option<nat>)
    ensures r.Some? ==> p < r.value <= |s|
  {
    var e := p + LineRun(s, p);
    if e > p && AtEnd(s, e) then Some(e) else None
  }

  /** Literal `lit` at `i`, ignoring the case of ASCII letters. */
  predicate LiteralAt(s: string, i: nat, lit: string)
  {
    i + |lit| <= |s| && Lower(s[i..i + |lit|]) == lit
  }

  /** `(?:de\s+)?` at `t`. */
  function DeEnds(s: string, t: nat): (r: seq<nat>)
    ensures |r| > 0 && r[|r| - 1] == t
  {
    (if LiteralAt(s, t, "de") then Plus(s, t + 2) else []) + [t]
  }

  /**
   * `\w`: letters, digits and `_`. Beyond Latin-1 every character counts
   * as a letter except whitespace and the punctuation and symbol blocks.
   */
  predicate IsWordChar(c: char)
  {
    ('0' <= c <= '9') || ('a' <= c <= 'z') || ('A' <= c <= 'Z') || c == '_'
    || c == '\U{00AA}' || c == '\U{00B2}' || c == '\U{00B3}' || c == '\U{00B5}' || c == '\U{00B9}' || c == '\U{00BA}'
    || ('\U{00BC}' <= c <= '\U{00BE}') || ('\U{00C0}' <= c <= '\U{00FF}' && c != '\U{00D7}' && c != '\U{00F7}')
    || ('\U{0100}' <= c && !IsSpace(c) && !('\U{2000}' <= c <= '\U{2BFF}') && !('\U{3000}' <= c <= '\U{303F}')
        && c != '\U{FEFF}')
  }

  /** `\b` at `i`: a word character on exactly one side. */
  predicate Boundary(s: string, i: nat)
  {
    (0 < i <= |s| && IsWordChar(s[i - 1])) != (i < |s| && IsWordChar(s[i]))
  }

  /** `[0-9]+(?:[\.,][0-9]+)?` at `i`: where it may end, in the order backtracking tries them. */
  function QtyEnds(s: string, i: nat): (r: seq<nat>)
    ensures forall k :: 0 <= k < |r| ==> i < r[k] <= |s| && Numeral(s[i..r[k]])
  {
    var a := DigitRun(s, i);
    if a == 0 then []
    else
      var f := if i + a < |s| && (s[i + a] == '.' || s[i + a] == ',') then DigitRun(s, i + a + 1) else 0;
      var r := (if f > 0 then Down(i + a + 1 + f, i + a + 2) else []) + Down(i + a, i + 1);
      assert forall k :: 0 <= k < |r| ==> i < r[k] <= |s| && Numeral(s[i..r[k]]) by {
        forall k | 0 <= k < |r| ensures i < r[k] <= |s| && Numeral(s[i..r[k]]) {
          var t := s[i..r[k]];
          if r[k] <= i + a {
            assert |t| > 0 && DigitsIn(t, 0, |t|);
          } else {
            assert t[a] == '.' || t[a] == ',';
            assert DigitsIn(t, 0, a) && DigitsIn(t, a + 1, |t|);
          }
        }
      }
      r
  }

  /** The unit words, in the order the alternation lists them. */
  const UnitWords: seq<string> := ["k", "kg", "kilo", "kilos", "u", "uni", "unidad", "unidades", "unit", "gr", "g"]

  /** A unit word in any letter case, possibly followed by one dot. */
  predicate UnitText(t: string)
  {
    exists w :: 0 <= w < |UnitWords| && (Lower(t) == UnitWords[w] + Dots(0) || Lower(t) == UnitWords[w] + Dots(1))
  }

  /** `(?:k|kg|...|g)\.?` at `i`, alternatives from `w` on: where it may end, in order. */
  function UnitEndsFrom(s: string, i: nat, w: nat): (r: seq<nat>)
    ensures forall k :: 0 <= k < |r| ==> i < r[k] <= |s| && UnitText(s[i..r[k]])
    decreases |UnitWords| - w
  {
    if w >= |UnitWords| then []
    else
      var here := WordEnds(s, i, UnitWords[w]);
      assert forall k :: 0 <= k < |here| ==> UnitText(s[i..here[k]]) by {
        forall k | 0 <= k < |here| ensures UnitText(s[i..here[k]]) {
          if Lower(s[i..here[k]]) == UnitWords[w] + Dots(0) {
            UnitWordText(s[i..here[k]], w, 0);
          } else {
            UnitWordText(s[i..here[k]], w, 1);
          }
        }
      }
      here + UnitEndsFrom(s, i, w + 1)
  }

  /** The literal `word`, then `\.?`, at `i`: where it may end, the dot tried first. */
  function WordEnds(s: string, i: nat, word: string): (r: seq<nat>)
    ensures forall k :: 0 <= k < |r| ==> i < r[k] <= |s|
                                         && (Lower(s[i..r[k]]) == word + Dots(0) || Lower(s[i..r[k]]) == word + Dots(1))
  {
    var y := i + |word|;
    if word == [] || !LiteralAt(s, i, word) then []
    else if y < |s| && s[y] == '.' then
      LiteralEnds(s, i, word);
      [y + 1, y]
    else
      LiteralEnds(s, i, word);
      [y]
  }

  /** The literal matched at `i`, alone or followed by a dot. */
  lemma LiteralEnds(s: string, i: nat, word: string)
    requires LiteralAt(s, i, word)
    ensures Lower(s[i..i + |word|]) == word + Dots(0)
    ensures i + |word| < |s| && s[i + |word|] == '.' ==> Lower(s[i..i + |word| + 1]) == word + Dots(1)
  {
    var y := i + |word|;
    assert word + Dots(0) == word;
    if y < |s| && s[y] == '.' {
      var t := s[i..y + 1];
      assert t == s[i..y] + ['.'];
      assert Lower(t)[..|word|] == Lower(s[i..y]);
      assert Lower(t)[|word|] == LowerChar('.') == '.';
      assert Lower(t) == word + Dots(1);
    }
  }

  lemma UnitWordText(t: string, w: nat, n: nat)
    requires w < |UnitWords| && n <= 1 && Lower(t) == UnitWords[w] + Dots(n)
    ensures UnitText(t)
  {
  }

  function UnitEnds(s: string, i: nat): (r: seq<nat>)
    ensures forall k :: 0 <= k < |r| ==> i < r[k] <= |s| && UnitText(s[i..r[k]])
  {
    UnitEndsFrom(s, i, 0)
  }

  /** A captured unit normalises to one of the three units. */
  lemma UnitTextUnit(t: string)
    requires UnitText(t)
    ensures NormUnit(t) in Units
  {
    var w :| 0 <= w < |UnitWords| && (Lower(t) == UnitWords[w] + Dots(0) || Lower(t) == UnitWords[w] + Dots(1));
    if Lower(t) == UnitWords[w] + Dots(0) {
      NormUnitExact(t, UnitWords[w], 0);
    } else {
      NormUnitExact(t, UnitWords[w], 1);
    }
  }

  // ---------------------------------------------------------------------
  // The line patterns

  /** What a line pattern extracts. */
  datatype Line = Line(product: string, qty: real, unit: string)

  /** A line as the parser promises it: no negative quantity, one of the three units. */
  predicate Sound(l: Line)
  {
    l.qty >= 0.0 && l.unit in Units
  }

  /**
   * The four line patterns of `_parse_line`, letter case ignored where the
   * source asks for it:
   * - `Leading`: `^(qty)\s*(unit\.?)?\b\s*(?:de\s+)?(rest.+)$`
   * - `Trailing`: `^(p.+?)\s+(?:de\s+)?(qty)\s*(unit\.?)\b\s*$`
   * - `TrailingBare`: `^(p.+?)\s+(qty)\s*$`
   * - `LeadingBare`: `^(qty)\s+(rest.+)$`
   */
  datatype Pattern = Leading | Trailing | TrailingBare | LeadingBare

  /** How many choices a match of the pattern makes. */
  function Depth(p: Pattern): nat
  {
    match p
    case Leading => 5
    case Trailing => 6
    case TrailingBare => 3
    case LeadingBare => 2
  }

  /** After some choices: whether the end of the pattern is reached, or the next choices in the order they are tried. */
  datatype Step = Done(accepted: bool) | More(choices: seq<nat>)

  /**
   * The positions a pattern chooses, in order:
   * - `Leading`: end of the quantity `q`, of the gap `x`, of the unit `z`
   *   (`z == x` when the unit is skipped), of the second gap `t`, start of
   *   the product `p`;
   * - `Trailing`: end of the product `e`, of the gap `t`, start of the
   *   quantity `d`, its end `q`, end of the gap `x`, of the unit `z`;
   * - `TrailingBare`: end of the product `e`, of the gap `t`, of the
   *   quantity `q`;
   * - `LeadingBare`: end of the quantity `q`, of the gap `t`.
   * A trailing `\s*$` is decided by its longest choice: only that one can
   * be followed by `$`.
   */
  function Next(s: string, p: Pattern, pos: seq<nat>): (r: Step)
    ensures |pos| >= Depth(p) <==> r.Done?
  {
    if |pos| >= Depth(p) then Done(Finish(s, p, pos))
    else
      match p
      case Leading =>
        if |pos| == 0 then More(QtyEnds(s, 0))
        else if |pos| == 1 then More(Star(s, pos[0]))
        else if |pos| == 2 then More(UnitEnds(s, pos[1]) + [pos[1]])
        else if |pos| == 3 then (if Boundary(s, pos[2]) then More(Star(s, pos[2])) else More([]))
        else More(DeEnds(s, pos[3]))
      case Trailing =>
        if |pos| == 0 then More(Up(1, LineRun(s, 0)))
        else if |pos| == 1 then More(Plus(s, pos[0]))
        else if |pos| == 2 then More(DeEnds(s, pos[1]))
        else if |pos| == 3 then More(QtyEnds(s, pos[2]))
        else if |pos| == 4 then More(Star(s, pos[3]))
        else More(UnitEnds(s, pos[4]))
      case TrailingBare =>
        if |pos| == 0 then More(Up(1, LineRun(s, 0)))
        else if |pos| == 1 then More(Plus(s, pos[0]))
        else More(QtyEnds(s, pos[1]))
      case LeadingBare =>
        if |pos| == 0 then More(QtyEnds(s, 0)) else More(Plus(s, pos[0]))
  }

  /** What the pattern still demands once all its choices are made: `\b`, `$` and a non-empty `(.+)`. */
  predicate Finish(s: string, p: Pattern, pos: seq<nat>)
    requires |pos| >= Depth(p)
  {
    match p
    case Leading => RestEnd(s, pos[4]).Some?
    case Trailing => Boundary(s, pos[5]) && AtEnd(s, pos[5] + SpaceRun(s, pos[5]))
    case TrailingBare => AtEnd(s, pos[2] + SpaceRun(s, pos[2]))
    case LeadingBare => RestEnd(s, pos[1]).Some?
  }

  /** The groups of a match, turned into a line. */
  function Groups(s: string, p: Pattern, pos: seq<nat>): Line
    requires |pos| >= Depth(p)
  {
    match p
    case Leading =>
      Line(Strip(Slice(s, pos[4], pos[4] + LineRun(s, pos[4]))), ToFloat(Slice(s, 0, pos[0])),
           NormUnit(if pos[2] == pos[1] then "unit" else Slice(s, pos[1], pos[2])))
    case Trailing =>
      Line(Strip(Slice(s, 0, pos[0])), ToFloat(Slice(s, pos[2], pos[3])), NormUnit(Slice(s, pos[4], pos[5])))
    case TrailingBare =>
      Line(Strip(Slice(s, 0, pos[0])), ToFloat(Slice(s, pos[1], pos[2])), "unit")
    case LeadingBare =>
      Line(Strip(Slice(s, pos[1], pos[1] + LineRun(s, pos[1]))), ToFloat(Slice(s, 0, pos[0])), "unit")
  }

  /** The choices of the match the backtracking engine finds after the choices `pos`. */
  function Explore(s: string, p: Pattern, pos: seq<nat>): Option<seq<nat>>
    decreases Depth(p) - |pos|, 2, 0
  {
    match Next(s, p, pos)
    case Done(ok) => if ok then Some(pos) else None
    case More(cs) => Search(s, p, pos, cs)
  }

  /** The first of the choices `cs` after `pos` that leads to a match. */
  function Search(s: string, p: Pattern, pos: seq<nat>, cs: seq<nat>): Option<seq<nat>>
    requires |pos| < Depth(p)
    decreases Depth(p) - |pos|, 1, |cs|
  {
    if cs == [] then None
    else
      var first := Explore(s, p, pos + [cs[0]]);
      if first.Some? then first else Search(s, p, pos, cs[1..])
  }

  /** The choices of the match `re.match` finds for the pattern on `s`. */
  function Match(s: string, p: Pattern): Option<seq<nat>>
  {
    Explore(s, p, [])
  }

  /** A match comes from one of the choices. */
  lemma {:induction false} SearchWitness(s: string, p: Pattern, pos: seq<nat>, cs: seq<nat>)
    requires |pos| < Depth(p)
    ensures Search(s, p, pos, cs).Some? ==>
              exists i :: 0 <= i < |cs| && Explore(s, p, pos + [cs[i]]) == Search(s, p, pos, cs)
    decreases |cs|
  {
    if cs != [] && Explore(s, p, pos + [cs[0]]).None? {
      SearchWitness(s, p, pos, cs[1..]);
      assert forall i :: 1 <= i < |cs| ==> cs[i] == cs[1..][i - 1];
    }
  }

  /** A choice that leads to a match makes the search succeed. */
  lemma {:induction false} SearchAny(s: string, p: Pattern, pos: seq<nat>, cs: seq<nat>, k: nat)
    requires |pos| < Depth(p) && k < |cs| && Explore(s, p, pos + [cs[k]]).Some?
    ensures Search(s, p, pos, cs).Some?
    decreases k
  {
    if k > 0 && Explore(s, p, pos + [cs[0]]).None? {
      assert cs[1..][k - 1] == cs[k];
      SearchAny(s, p, pos, cs[1..], k - 1);
    }
  }

  /** What the choices made so far guarantee: captured quantities are numerals, captured units unit words. */
  predicate Valid(s: string, p: Pattern, pos: seq<nat>)
  {
    match p
    case Leading =>
      (|pos| >= 1 ==> 0 < pos[0] <= |s| && Numeral(s[0..pos[0]]))
      && (|pos| >= 3 ==> pos[2] == pos[1] || (pos[1] < pos[2] <= |s| && UnitText(s[pos[1]..pos[2]])))
    case Trailing =>
      (|pos| >= 4 ==> pos[2] < pos[3] <= |s| && Numeral(s[pos[2]..pos[3]]))
      && (|pos| >= 6 ==> pos[4] < pos[5] <= |s| && UnitText(s[pos[4]..pos[5]]))
    case TrailingBare =>
      |pos| >= 3 ==> pos[1] < pos[2] <= |s| && Numeral(s[pos[1]..pos[2]])
    case LeadingBare =>
      |pos| >= 1 ==> 0 < pos[0] <= |s| && Numeral(s[0..pos[0]])
  }

  /** Every choice the engine offers keeps the choices valid. */
  lemma NextValid(s: string, p: Pattern, pos: seq<nat>, k: nat)
    requires Valid(s, p, pos) && Next(s, p, pos).More? && k < |Next(s, p, pos).choices|
    ensures Valid(s, p, pos + [Next(s, p, pos).choices[k]])
  {
    match p
    case Leading => NextValidLeading(s, pos, k);
    case Trailing => NextValidTrailing(s, pos, k);
    case TrailingBare => NextValidTrailingBare(s, pos, k);
    case LeadingBare => NextValidLeadingBare(s, pos, k);
  }

  lemma NextValidLeading(s: string, pos: seq<nat>, k: nat)
    requires Valid(s, Leading, pos) && Next(s, Leading, pos).More? && k < |Next(s, Leading, pos).choices|
    ensures Valid(s, Leading, pos + [Next(s, Leading, pos).choices[k]])
  {
    var c := Next(s, Leading, pos).choices[k];
    var pos' := pos + [c];
    if |pos| == 0 {
      assert c == QtyEnds(s, 0)[k];
    } else if |pos| == 2 {
      NextValidUnit(s, pos, k);
    } else {
      assert pos'[0] == pos[0];
      assert |pos| >= 3 ==> pos'[1] == pos[1] && pos'[2] == pos[2];
    }
  }

  lemma NextValidUnit(s: string, pos: seq<nat>, k: nat)
    requires |pos| == 2 && Valid(s, Leading, pos) && k < |Next(s, Leading, pos).choices|
    ensures Valid(s, Leading, pos + [Next(s, Leading, pos).choices[k]])
  {
    var c := Next(s, Leading, pos).choices[k];
    var us := UnitEnds(s, pos[1]);
    assert Next(s, Leading, pos).choices == us + [pos[1]];
    UnitChoice(s, pos[1], us, k, c);
    ValidLeadingUnit(s, pos, c);
  }

  /** A choice among the unit ends, or the empty unit, ends a unit text or is empty. */
  lemma UnitChoice(s: string, i: nat, us: seq<nat>, k: nat, c: nat)
    requires forall k :: 0 <= k < |us| ==> i < us[k] <= |s| && UnitText(s[i..us[k]])
    requires k < |us| + 1 && c == (us + [i])[k]
    ensures c == i || (i < c <= |s| && UnitText(s[i..c]))
  {
    if k < |us| {
      assert c == us[k];
    }
  }

  /** A unit end, or no unit at all, extends valid leading choices. */
  lemma ValidLeadingUnit(s: string, pos: seq<nat>, c: nat)
    requires |pos| == 2 && Valid(s, Leading, pos)
    requires c == pos[1] || (pos[1] < c <= |s| && UnitText(s[pos[1]..c]))
    ensures Valid(s, Leading, pos + [c])
  {
    var pos' := pos + [c];
    assert pos'[0] == pos[0] && pos'[1] == pos[1] && pos'[2] == c;
  }

  lemma NextValidTrailing(s: string, pos: seq<nat>, k: nat)
    requires Valid(s, Trailing, pos) && Next(s, Trailing, pos).More? && k < |Next(s, Trailing, pos).choices|
    ensures Valid(s, Trailing, pos + [Next(s, Trailing, pos).choices[k]])
  {
    var c := Next(s, Trailing, pos).choices[k];
    var pos' := pos + [c];
    assert forall i :: 0 <= i < |pos| ==> pos'[i] == pos[i];
  }

  lemma NextValidTrailingBare(s: string, pos: seq<nat>, k: nat)
    requires Valid(s, TrailingBare, pos) && Next(s, TrailingBare, pos).More? && k < |Next(s, TrailingBare, pos).choices|
    ensures Valid(s, TrailingBare, pos + [Next(s, TrailingBare, pos).choices[k]])
  {
    var c := Next(s, TrailingBare, pos).choices[k];
    var pos' := pos + [c];
    assert forall i :: 0 <= i < |pos| ==> pos'[i] == pos[i];
  }

  lemma NextValidLeadingBare(s: string, pos: seq<nat>, k: nat)
    requires Valid(s, LeadingBare, pos) && Next(s, LeadingBare, pos).More? && k < |Next(s, LeadingBare, pos).choices|
    ensures Valid(s, LeadingBare, pos + [Next(s, LeadingBare, pos).choices[k]])
  {
    var c := Next(s, LeadingBare, pos).choices[k];
    var pos' := pos + [c];
    assert forall i :: 0 <= i < |pos| ==> pos'[i] == pos[i];
  }

  /** The groups of valid choices make a sound line. */
  lemma GroupsSound(s: string, p: Pattern, pos: seq<nat>)
    requires |pos| >= Depth(p) && Valid(s, p, pos)
    ensures Sound(Groups(s, p, pos))
  {
    match p
    case Leading => GroupsSoundLeading(s, pos);
    case Trailing => GroupsSoundTrailing(s, pos);
    case TrailingBare =>
      NumeralValue(s[pos[1]..pos[2]]);
      assert Groups(s, p, pos).qty == ToFloat(s[pos[1]..pos[2]]);
    case LeadingBare =>
      NumeralValue(s[0..pos[0]]);
      assert Groups(s, p, pos).qty == ToFloat(s[0..pos[0]]);
  }

  lemma GroupsSoundLeading(s: string, pos: seq<nat>)
    requires |pos| >= Depth(Leading) && Valid(s, Leading, pos)
    ensures Sound(Groups(s, Leading, pos))
  {
    NumeralValue(s[0..pos[0]]);
    var u := if pos[2] == pos[1] then "unit" else Slice(s, pos[1], pos[2]);
    assert Groups(s, Leading, pos).qty == ToFloat(s[0..pos[0]]);
    assert Groups(s, Leading, pos).unit == NormUnit(u);
    if pos[2] == pos[1] {
      NormUnitDefault();
    } else {
      UnitTextUnit(s[pos[1]..pos[2]]);
    }
  }

  /** A skipped unit group leaves the default `unit`. */
  lemma NormUnitDefault()
    ensures NormUnit("unit") == "unit"
  {
    NormUnitExact("unit", "unit", 0);
  }

  lemma GroupsSoundTrailing(s: string, pos: seq<nat>)
    requires |pos| >= Depth(Trailing) && Valid(s, Trailing, pos)
    ensures Sound(Groups(s, Trailing, pos))
  {
    NumeralValue(s[pos[2]..pos[3]]);
    UnitTextUnit(s[pos[4]..pos[5]]);
    assert Groups(s, Trailing, pos).qty == ToFloat(s[pos[2]..pos[3]]);
    assert Groups(s, Trailing, pos).unit == NormUnit(s[pos[4]..pos[5]]);
  }

  /** The choices of every match found after valid choices are complete, valid and accepted. */
  lemma {:induction false} ExploreSound(s: string, p: Pattern, pos: seq<nat>)
    requires Valid(s, p, pos)
    ensures Explore(s, p, pos).Some? ==>
              var m := Explore(s, p, pos).value; |m| >= Depth(p) && Valid(s, p, m) && Finish(s, p, m)
    decreases Depth(p) - |pos|
  {
    var step := Next(s, p, pos);
    if step.More? && Explore(s, p, pos).Some? {
      var cs := step.choices;
      SearchWitness(s, p, pos, cs);
      var i :| 0 <= i < |cs| && Explore(s, p, pos + [cs[i]]) == Search(s, p, pos, cs);
      NextValid(s, p, pos, i);
      ExploreSound(s, p, pos + [cs[i]]);
    }
  }

  /** Every pattern's match has a non-negative quantity and one of the three units. */
  lemma MatchSound(s: string, p: Pattern)
    ensures Match(s, p).Some? ==> |Match(s, p).value| >= Depth(p) && Sound(Groups(s, p, Match(s, p).value))
  {
    ExploreSound(s, p, []);
    if Match(s, p).Some? {
      GroupsSound(s, p, Match(s, p).value);
    }
  }

  /** A choice that leads to a match makes the pattern match from where it stands. */
  lemma ExploreVia(s: string, p: Pattern, pos: seq<nat>, k: nat)
    requires Next(s, p, pos).More? && k < |Next(s, p, pos).choices|
    requires Explore(s, p, pos + [Next(s, p, pos).choices[k]]).Some?
    ensures Explore(s, p, pos).Some?
  {
    SearchAny(s, p, pos, Next(s, p, pos).choices, k);
  }

  /** The quantity end and the gap end through which `LeadingBare` matched. */
  lemma LeadingBareChoices(s: string) returns (i: nat, j: nat)
    requires Match(s, LeadingBare).Some?
    ensures i < |QtyEnds(s, 0)|
    ensures j < |Plus(s, QtyEnds(s, 0)[i])| && RestEnd(s, Plus(s, QtyEnds(s, 0)[i])[j]).Some?
  {
    i := LeadingBareQty(s);
    j := LeadingBareGap(s, QtyEnds(s, 0)[i]);
  }

  /** The quantity end through which `LeadingBare` matched. */
  lemma LeadingBareQty(s: string) returns (i: nat)
    requires Match(s, LeadingBare).Some?
    ensures i < |QtyEnds(s, 0)| && Explore(s, LeadingBare, [QtyEnds(s, 0)[i]]).Some?
  {
    var qs := QtyEnds(s, 0);
    assert Next(s, LeadingBare, []) == More(qs);
    SearchWitness(s, LeadingBare, [], qs);
    i :| 0 <= i < |qs| && Explore(s, LeadingBare, [] + [qs[i]]) == Match(s, LeadingBare);
    assert [] + [qs[i]] == [qs[i]];
  }

  /** The gap end through which `LeadingBare` matched after the quantity. */
  lemma LeadingBareGap(s: string, q: nat) returns (j: nat)
    requires Explore(s, LeadingBare, [q]).Some?
    ensures j < |Plus(s, q)| && RestEnd(s, Plus(s, q)[j]).Some?
  {
    var ts := Plus(s, q);
    assert Next(s, LeadingBare, [q]) == More(ts);
    SearchWitness(s, LeadingBare, [q], ts);
    j :| 0 <= j < |ts| && Explore(s, LeadingBare, [q] + [ts[j]]) == Explore(s, LeadingBare, [q]);
    var pos := [q] + [ts[j]];
    assert pos == [q, ts[j]];
    assert Next(s, LeadingBare, pos) == Done(Finish(s, LeadingBare, pos));
  }

  /** `Leading` with the unit skipped: from the second gap's end on. */
  lemma LeadingFromGap(s: string, q: nat, t: nat)
    requires RestEnd(s, t).Some?
    ensures Explore(s, Leading, [q, q, q, t]).Some?
  {
    var ps := DeEnds(s, t);
    assert Next(s, Leading, [q, q, q, t]) == More(ps);
    assert [q, q, q, t] + [ps[|ps| - 1]] == [q, q, q, t, t];
    assert Explore(s, Leading, [q, q, q, t, t]).Some?;
    ExploreVia(s, Leading, [q, q, q, t], |ps| - 1);
  }

  /** `Leading` with the unit skipped: from the skipped unit on, where `\b` holds. */
  lemma LeadingFromUnit(s: string, q: nat, t: nat)
    requires 0 < q <= |s| && IsDigit(s[q - 1])
    requires q < t <= q + SpaceRun(s, q) && RestEnd(s, t).Some?
    ensures Explore(s, Leading, [q, q, q]).Some?
  {
    LeadingFromGap(s, q, t);
    var xs := Star(s, q);
    var k := q + SpaceRun(s, q) - t;
    assert xs[k] == t;
    assert Boundary(s, q);
    assert Next(s, Leading, [q, q, q]) == More(xs);
    assert [q, q, q] + [xs[k]] == [q, q, q, t];
    ExploreVia(s, Leading, [q, q, q], k);
  }

  /** `Leading` with the unit skipped: from the first gap's end on. */
  lemma LeadingFromStar(s: string, q: nat, t: nat)
    requires 0 < q <= |s| && IsDigit(s[q - 1])
    requires q < t <= q + SpaceRun(s, q) && RestEnd(s, t).Some?
    ensures Explore(s, Leading, [q, q]).Some?
  {
    LeadingFromUnit(s, q, t);
    var zs := UnitEnds(s, q) + [q];
    assert Next(s, Leading, [q, q]) == More(zs);
    assert [q, q] + [zs[|zs| - 1]] == [q, q, q];
    ExploreVia(s, Leading, [q, q], |zs| - 1);
  }

  /** `Leading` with the unit skipped: from the quantity's end on. */
  lemma LeadingFromQty(s: string, q: nat, t: nat)
    requires 0 < q <= |s| && IsDigit(s[q - 1])
    requires q < t <= q + SpaceRun(s, q) && RestEnd(s, t).Some?
    ensures Explore(s, Leading, [q]).Some?
  {
    LeadingFromStar(s, q, t);
    var xs := Star(s, q);
    assert Next(s, Leading, [q]) == More(xs);
    assert [q] + [xs[|xs| - 1]] == [q, q];
    ExploreVia(s, Leading, [q], |xs| - 1);
  }

  /**
   * `LeadingBare` never decides a line: whenever a bare leading quantity
   * is followed by whitespace and text, `Leading` already matches, with its
   * unit group skipped and its first `\s*` empty.
   */
  lemma LeadingBareShadowed(s: string)
    ensures Match(s, LeadingBare).Some? ==> Match(s, Leading).Some?
  {
    if Match(s, LeadingBare).Some? {
      var i, j := LeadingBareChoices(s);
      var qs := QtyEnds(s, 0);
      var q := qs[i];
      var t := Plus(s, q)[j];
      assert IsDigit(s[q - 1]) by {
        assert Numeral(s[0..q]);
        assert s[0..q][q - 1] == s[q - 1];
      }
      LeadingFromQty(s, q, t);
      assert [] + [qs[i]] == [q];
      ExploreVia(s, Leading, [], i);
    }
  }

  /**
   * The patterns in the order `_parse_line` tries them; a line none of
   * them matches is a product of one unit.
   */
  function Shape(s: string): Line
  {
    var m := Match(s, Leading);
    if m.Some? && |m.value| >= Depth(Leading) then Groups(s, Leading, m.value)
    else
      var m := Match(s, Trailing);
      if m.Some? && |m.value| >= Depth(Trailing) then Groups(s, Trailing, m.value)
      else
        var m := Match(s, TrailingBare);
        if m.Some? && |m.value| >= Depth(TrailingBare) then Groups(s, TrailingBare, m.value)
        else
          var m := Match(s, LeadingBare);
          if m.Some? && |m.value| >= Depth(LeadingBare) then Groups(s, LeadingBare, m.value)
          else Line(s, 1.0, "unit")
  }

  /** Every line shape has a non-negative quantity and one of the three units. */
  lemma ShapeSound(s: string)
    ensures Sound(Shape(s))
  {
    MatchSound(s, Leading);
    MatchSound(s, Trailing);
    MatchSound(s, TrailingBare);
    MatchSound(s, LeadingBare);
  }

  // ---------------------------------------------------------------------
  // Lines and headers

  /** A parsed line: `_parse_line`'s dictionary. */
  datatype Parsed = Parsed(product: string, qty: real, unit: string, notes: string, raw: string)

  /** `_parse_line`: nothing for a line that is empty once cleaned. */
  function ParseLine(line: string): (r: Option<Parsed>)
    ensures r.None? <==> CleanLine(line) == ""
  {
    var c := CleanLine(line);
    if c == "" then None
    else
      var (w, notes) := ExtractParenNotes(c);
      var l := Shape(w);
      Some(Parsed(l.product, l.qty, l.unit, notes, line))
  }

  /** A parsed line never has a negative quantity and is in kg, units or grams. */
  lemma ParseLineSound(line: string)
    ensures ParseLine(line).Some? ==> ParseLine(line).value.qty >= 0.0 && ParseLine(line).value.unit in Units
  {
    if CleanLine(line) != "" {
      ShapeSound(ExtractParenNotes(CleanLine(line)).0);
    }
  }

  /** `^pedido\s+(.+)$`, letter case ignored: the stripped name after the keyword. */
  function Header(line: string): Option<string>
  {
    if !LiteralAt(line, 0, "pedido") then None
    else HeaderNames(line, Plus(line, 6))
  }

  /** The ends `t` of the gap after the keyword, longest first. */
  function HeaderNames(line: string, ts: seq<nat>): Option<string>
  {
    if ts == [] then None
    else
      var first := HeaderName(line, ts[0]);
      if first.Some? then first else HeaderNames(line, ts[1..])
  }

  function HeaderName(line: string, t: nat): Option<string>
  {
    var e := RestEnd(line, t);
    if e.None? then None else Some(Strip(Slice(line, t, e.value)))
  }

  predicate IsLineBreak(c: char)
  {
    c == '\n' || c == '\r' || c == '\U{000B}' || c == '\U{000C}' || c == '\U{001C}' || c == '\U{001D}'
    || c == '\U{001E}' || c == '\U{0085}' || c == '\U{2028}' || c == '\U{2029}'
  }

  /** Length of the text before the first line boundary. */
  function LineLength(s: string): (n: nat)
    ensures n <= |s|
    ensures forall i :: 0 <= i < n ==> !IsLineBreak(s[i])
    ensures n < |s| ==> IsLineBreak(s[n])
  {
    if s == [] || IsLineBreak(s[0]) then 0 else 1 + LineLength(s[1..])
  }

  /** `str.splitlines()`: `\r\n` is one boundary, and a final boundary opens no empty line. */
  function SplitLines(text: string): (lines: seq<string>)
    ensures forall k, i :: 0 <= k < |lines| && 0 <= i < |lines[k]| ==> !IsLineBreak(lines[k][i])
    decreases |text|
  {
    var n := LineLength(text);
    if n == |text| then (if text == [] then [] else [text])
    else
      var skip := if text[n] == '\r' && n + 1 < |text| && text[n + 1] == '\n' then 2 else 1;
      var rest := SplitLines(text[n + skip..]);
      assert forall i :: 0 <= i < |text[..n]| ==> !IsLineBreak(text[..n][i]);
      [text[..n]] + rest
  }

  // ---------------------------------------------------------------------
  // The whole text

  /** What one text line is to `parse_orders_text`. */
  datatype LineKind = Blank | CustomerHeader(name: string) | Entry(parsed: Parsed)

  /** A line is blank once cleaned, a `pedido` header, or an order line. */
  function Classify(line: string): LineKind
  {
    var c := CleanLine(line);
    if c == "" then Blank
    else if Header(c).Some? then CustomerHeader(Header(c).value)
    else
      var p := ParseLine(c);
      if p.None? then Blank else Entry(p.value)
  }

  /** A cleaned line that is not empty always parses. */
  lemma ParseCleanLine(c: string)
    requires CleanLine(c) == c && c != ""
    ensures ParseLine(c).Some?
  {
  }

  /** Cleaning leaves nothing only for a blank line. */
  lemma ClassifyBlank(line: string)
    ensures Classify(line).Blank? <==> CleanLine(line) == ""
  {
    var c := CleanLine(line);
    ClassifyCases(line, c);
    if c != "" {
      CleanLineIdempotent(line);
      ParseCleanLine(c);
    }
  }

  /** Every non-blank line that is not a header is parsed, never dropped. */
  lemma ClassifyEntry(line: string)
    ensures Classify(line).Entry? <==> CleanLine(line) != "" && Header(CleanLine(line)).None?
  {
    var c := CleanLine(line);
    ClassifyCases(line, c);
    if c != "" {
      CleanLineIdempotent(line);
      ParseCleanLine(c);
    }
  }

  function Kinds(lines: seq<string>): (ks: seq<LineKind>)
    ensures |ks| == |lines|
  {
    KindsBy(Classify, lines)
  }

  /** The kinds `read` gives the lines, in order. */
  function KindsBy(read: string -> LineKind, lines: seq<string>): (ks: seq<LineKind>)
    ensures |ks| == |lines|
  {
    if lines == [] then [] else KindsBy(read, lines[..|lines| - 1]) + [read(lines[|lines| - 1])]
  }

  /** Each line's kind is what `read` makes of it. */
  lemma {:induction false} KindsByAt(read: string -> LineKind, lines: seq<string>, k: nat)
    requires k < |lines|
    ensures KindsBy(read, lines)[k] == read(lines[k])
    decreases |lines|
  {
    var n := |lines| - 1;
    if k < n {
      KindsByAt(read, lines[..n], k);
      assert lines[..n][k] == lines[k];
    }
  }

  /** One item of `parse_orders_text`. */
  datatype Item = Item(product: string, qty: real, unit: string, notes: string, raw: string,
                       customer: string, lineIndex: nat)

  function ItemOf(p: Parsed, customer: string, k: nat): (it: Item)
    ensures it.customer == customer && it.lineIndex == k && it.raw == p.raw
  {
    Item(p.product, p.qty, p.unit, p.notes, p.raw, customer, k)
  }

  /** The name of the last customer header among the lines, "" before the first one. */
  function CustomerAfter(ks: seq<LineKind>): string
  {
    if ks == [] then ""
    else if ks[|ks| - 1].CustomerHeader? then ks[|ks| - 1].name
    else CustomerAfter(ks[..|ks| - 1])
  }

  /** The item line `k` yields, under the customer of the headers before it. */
  function ItemAt(ks: seq<LineKind>, k: nat): Option<Item>
    requires k < |ks|
  {
    if ks[k].Entry? then Some(ItemOf(ks[k].parsed, CustomerAfter(ks[..k]), k)) else None
  }

  /** The items of the lines, in line order. */
  function ItemsOf(ks: seq<LineKind>): seq<Item>
  {
    if ks == [] then []
    else
      var last := ItemAt(ks, |ks| - 1);
      ItemsOf(ks[..|ks| - 1]) + (if last.Some? then [last.value] else [])
  }

  /** One more line: it adds its item, if any, under the current customer. */
  lemma OneMoreLine(ks: seq<LineKind>, k: LineKind)
    ensures CustomerAfter(ks + [k]) == if k.CustomerHeader? then k.name else CustomerAfter(ks)
    ensures ItemsOf(ks + [k]) == ItemsOf(ks) + if k.Entry? then [ItemOf(k.parsed, CustomerAfter(ks), |ks|)] else []
  {
    assert (ks + [k])[..|ks|] == ks;
  }

  lemma ClassifyCases(line: string, c: string)
    requires c == CleanLine(line)
    ensures c == "" ==> Classify(line) == Blank
    ensures c != "" && Header(c).Some? ==> Classify(line) == CustomerHeader(Header(c).value)
    ensures c != "" && Header(c).None? && ParseLine(c).Some? ==> Classify(line) == Entry(ParseLine(c).value)
    ensures c != "" && Header(c).None? && ParseLine(c).None? ==> Classify(line) == Blank
  {
  }

  /** One line of `parse_orders_text`: cleaned, then read as a customer header, an item or nothing. */
  method ReadLine(raw: string) returns (kind: LineKind)
    ensures kind == Classify(raw)
  {
    var line := CleanLine(raw);
    ClassifyCases(raw, line);
    if line == "" {
      return Blank;
    }
    var header := Header(line);
    if header.Some? {
      return CustomerHeader(header.value);
    }
    var parsed := ParseLine(line);
    if parsed.None? {
      return Blank;
    }
    return Entry(parsed.value);
  }

  /** Line `idx` adds its item, if any, under the customer of the lines before it. */
  lemma LineStep(ks: seq<LineKind>, idx: nat)
    requires idx < |ks|
    ensures CustomerAfter(ks[..idx + 1]) == if ks[idx].CustomerHeader? then ks[idx].name else CustomerAfter(ks[..idx])
    ensures ItemsOf(ks[..idx + 1]) == ItemsOf(ks[..idx]) + if ks[idx].Entry? then [ItemOf(ks[idx].parsed, CustomerAfter(ks[..idx]), idx)] else []
  {
    PrefixSnoc(ks, idx);
    OneMoreLine(ks[..idx], ks[idx]);
  }

  /** `parse_orders_text`: the loop over the lines, with the current customer. */
  method ParseOrdersText(text: string) returns (items: seq<Item>)
    ensures items == ItemsOf(Kinds(SplitLines(text)))
  {
    var lines := SplitLines(text);
    ghost var ks := Kinds(lines);
    items := [];
    var current := "";
    var idx := 0;
    assert ks[..idx] == [];
    while idx < |lines|
      invariant 0 <= idx <= |lines|
      invariant items == ItemsOf(ks[..idx])
      invariant current == CustomerAfter(ks[..idx])
    {
      LineStep(ks, idx);
      var kind := ReadLine(lines[idx]);
      KindsByAt(Classify, lines, idx);
      assert kind == ks[idx];
      match kind {
        case CustomerHeader(name) =>
          current := name;
        case Entry(parsed) =>
          items := items + [ItemOf(parsed, current, idx)];
        case Blank =>
      }
      idx := idx + 1;
    }
    PrefixAll(ks);
  }

  lemma ItemAtPrefix(ks: seq<LineKind>, n: nat, k: nat)
    requires k < n <= |ks|
    ensures ItemAt(ks[..n], k) == ItemAt(ks, k)
  {
    assert ks[..n][..k] == ks[..k];
  }

  /** Each item comes from the line it names, and items follow line order strictly. */
  lemma {:induction false} ItemsOfOrdered(ks: seq<LineKind>)
    ensures forall i :: 0 <= i < |ItemsOf(ks)| ==>
              ItemsOf(ks)[i].lineIndex < |ks| && ItemAt(ks, ItemsOf(ks)[i].lineIndex) == Some(ItemsOf(ks)[i])
    ensures forall i, j :: 0 <= i < j < |ItemsOf(ks)| ==> ItemsOf(ks)[i].lineIndex < ItemsOf(ks)[j].lineIndex
  {
    if ks != [] {
      var init := ks[..|ks| - 1];
      ItemsOfOrdered(init);
      forall i | 0 <= i < |ItemsOf(init)|
        ensures ItemAt(ks, ItemsOf(init)[i].lineIndex) == Some(ItemsOf(init)[i])
      {
        ItemAtPrefix(ks, |ks| - 1, ItemsOf(init)[i].lineIndex);
      }
    }
  }

  /** Every line that yields an item has its item in the result. */
  lemma {:induction false} ItemsOfComplete(ks: seq<LineKind>, k: nat)
    requires k < |ks| && ItemAt(ks, k).Some?
    ensures exists i :: 0 <= i < |ItemsOf(ks)| && ItemsOf(ks)[i] == ItemAt(ks, k).value
  {
    var init := ks[..|ks| - 1];
    var last := ItemAt(ks, |ks| - 1);
    var r := ItemsOf(ks);
    assert r == ItemsOf(init) + (if last.Some? then [last.value] else []);
    if k < |init| {
      ItemsOfComplete(init, k);
      ItemAtPrefix(ks, |ks| - 1, k);
      var i :| 0 <= i < |ItemsOf(init)| && ItemsOf(init)[i] == ItemAt(init, k).value;
      assert r[i] == ItemsOf(init)[i];
    } else {
      assert r[|r| - 1] == ItemAt(ks, k).value;
    }
  }
}
