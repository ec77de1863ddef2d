/**
 * The fuzzy matcher: text normalisation, the edit distance between two
 * strings and the similarity score built on both.
 */
module TextMatch {
  import opened Text

  // ---------------------------------------------------------------------
  // Normalisation

  /** A combining diacritical mark: the nonspacing marks NFD splits off Latin-1 letters. */
  predicate IsMark(c: char)
  {
    '\U{0300}' <= c <= '\U{036F}'
  }

  /** The base letter NFD leaves of a lower-case Latin-1 letter once its mark is dropped. */
  function BaseLetter(c: char): char
  {
    if '\U{00E0}' <= c <= '\U{00E5}' then 'a'
    else if c == '\U{00E7}' then 'c'
    else if '\U{00E8}' <= c <= '\U{00EB}' then 'e'
    else if '\U{00EC}' <= c <= '\U{00EF}' then 'i'
    else if c == '\U{00F1}' then 'n'
    else if '\U{00F2}' <= c <= '\U{00F6}' then 'o'
    else if '\U{00F9}' <= c <= '\U{00FC}' then 'u'
    else if c == '\U{00FD}' || c == '\U{00FF}' then 'y'
    else c
  }

  /** A character normalised text may hold: no capital, no mark, no accent. */
  predicate Plain(c: char)
  {
    !IsUpper(c) && !IsMark(c) && BaseLetter(c) == c
  }

  predicate AllPlain(s: string)
  {
    forall i :: 0 <= i < |s| ==> Plain(s[i])
  }

  /** NFD followed by dropping every nonspacing mark. */
  function DropMarks(s: string): (r: string)
    ensures forall i :: 0 <= i < |s| && !IsUpper(s[i]) ==> !IsUpper(BaseLetter(s[i]))
    ensures (forall i :: 0 <= i < |s| ==> !IsUpper(s[i])) ==> AllPlain(r)
  {
    if s == [] then []
    else (if IsMark(s[0]) then [] else [BaseLetter(s[0])]) + DropMarks(s[1..])
  }

  /** Text that is already plain is left as it is. */
  lemma {:induction false} DropMarksPlain(s: string)
    requires AllPlain(s)
    ensures DropMarks(s) == s
  {
    if s != [] {
      DropMarksPlain(s[1..]);
    }
  }

  lemma {:induction false} LowerPlain(s: string)
    requires AllPlain(s)
    ensures Lower(s) == s
  {
  }

  /** Every character of every word in `ws` occurs in `s`. */
  predicate CharsFrom(ws: seq<string>, s: string)
  {
    forall k, i :: 0 <= k < |ws| && 0 <= i < |ws[k]| ==> ws[k][i] in s
  }

  /** Every character of `Words(s)` comes from `s`. */
  lemma {:induction false} WordsFrom(s: string)
    ensures CharsFrom(Words(s), s)
    decreases |s|
  {
    var t := LStrip(s);
    if t != [] {
      var n := WordLength(t);
      WordsFrom(t[n..]);
      assert Words(s) == [t[..n]] + Words(t[n..]);
      ConsFrom(s, t, n, Words(t[n..]));
    }
  }

  /** A word cut from the front of a suffix, then words from the rest of it, all come from `s`. */
  lemma ConsFrom(s: string, t: string, n: nat, ws: seq<string>)
    requires |t| <= |s| && t == s[|s| - |t|..] && n <= |t|
    requires CharsFrom(ws, t[n..])
    ensures CharsFrom([t[..n]] + ws, s)
  {
    SliceIn(t, t[n..], n, |t|);
    CharsFromWider(ws, t[n..], t);
    SliceIn(t, t[..n], 0, n);
    CharsFromCons(t[..n], ws, t);
    SliceIn(s, t, |s| - |t|, |s|);
    CharsFromWider([t[..n]] + ws, t, s);
  }

  /** A slice's characters occur in the sequence it is cut from. */
  lemma SliceIn(s: string, u: string, i: nat, j: nat)
    requires i <= j <= |s| && u == s[i..j]
    ensures forall c :: c in u ==> c in s
  {
    forall c | c in u ensures c in s {
      var m :| 0 <= m < |u| && u[m] == c;
      assert s[i + m] == c;
    }
  }

  lemma CharsFromWider(ws: seq<string>, t: string, s: string)
    requires CharsFrom(ws, t) && forall c :: c in t ==> c in s
    ensures CharsFrom(ws, s)
  {
  }

  lemma CharsFromCons(w: string, ws: seq<string>, s: string)
    requires (forall c :: c in w ==> c in s) && CharsFrom(ws, s)
    ensures CharsFrom([w] + ws, s)
  {
    forall k, i | 0 <= k < |[w] + ws| && 0 <= i < |([w] + ws)[k]| ensures ([w] + ws)[k][i] in s {
      if k > 0 {
        assert ([w] + ws)[k] == ws[k - 1];
      }
    }
  }

  /** Every character of `Join(" ", ws)` is a space or comes from a word. */
  lemma {:induction false} JoinFrom(ws: seq<string>, c: char)
    requires c in Join(" ", ws)
    ensures c == ' ' || exists k :: 0 <= k < |ws| && c in ws[k]
  {
    if |ws| > 1 {
      var tail := Join(" ", ws[1..]);
      assert Join(" ", ws) == ws[0] + " " + tail;
      if c !in ws[0] && c != ' ' {
        assert c in tail;
        JoinFrom(ws[1..], c);
        var k :| 0 <= k < |ws[1..]| && c in ws[1..][k];
        assert c in ws[k + 1];
      }
    }
  }

  /** Collapsing spaces introduces no character but ' '. */
  lemma CollapseFrom(s: string)
    ensures forall i :: 0 <= i < |CollapseSpaces(s)| ==> CollapseSpaces(s)[i] == ' ' || CollapseSpaces(s)[i] in s
  {
    WordsFrom(s);
    assert CharsFrom(Words(s), s);
    forall i | 0 <= i < |CollapseSpaces(s)| ensures CollapseSpaces(s)[i] == ' ' || CollapseSpaces(s)[i] in s {
      JoinFrom(Words(s), CollapseSpaces(s)[i]);
    }
  }

  /** A word followed by whitespace or nothing is one word long. */
  lemma {:induction false} WordLengthOf(w: string, rest: string)
    requires NoSpace(w) && (rest == [] || IsSpace(rest[0]))
    ensures WordLength(w + rest) == |w|
  {
    if w != [] {
      assert (w + rest)[1..] == w[1..] + rest;
      WordLengthOf(w[1..], rest);
    }
  }

  lemma JoinHead(ws: seq<string>)
    requires ws != [] && ws[0] != []
    ensures Join(" ", ws) != [] && Join(" ", ws)[0] == ws[0][0]
  {
  }

  /** Text that starts with a word: that word, then the words of the rest. */
  lemma WordsCons(s: string)
    requires s != [] && !IsSpace(s[0])
    ensures Words(s) == [s[..WordLength(s)]] + Words(s[WordLength(s)..])
  {
    assert LStrip(s) == s;
  }

  /** One leading space does not change the words. */
  lemma WordsAfterSpace(j: string)
    requires j != [] && !IsSpace(j[0])
    ensures Words(" " + j) == Words(j)
  {
    assert (" " + j)[1..] == j;
    assert LStrip(j) == j;
    assert LStrip(" " + j) == j;
  }

  /** Splitting words joined by single spaces gives the words back. */
  lemma {:induction false} WordsOfJoin(ws: seq<string>)
    requires forall k :: 0 <= k < |ws| ==> ws[k] != [] && NoSpace(ws[k])
    ensures Words(Join(" ", ws)) == ws
  {
    if ws == [] {
      assert LStrip("") == "";
    } else if |ws| == 1 {
      WordsOfWord(ws[0]);
    } else {
      var rest := ws[1..];
      forall k | 0 <= k < |rest| ensures rest[k] != [] && NoSpace(rest[k]) {
        assert rest[k] == ws[k + 1];
      }
      WordsOfJoin(rest);
      WordsOfJoinStep(ws);
      assert ws == [ws[0]] + rest;
    }
  }

  /** One more word in front of words joined by single spaces. */
  lemma WordsOfJoinStep(ws: seq<string>)
    requires |ws| > 1 && ws[0] != [] && NoSpace(ws[0]) && ws[1] != [] && NoSpace(ws[1])
    ensures Words(Join(" ", ws)) == [ws[0]] + Words(Join(" ", ws[1..]))
  {
    var rest := ws[1..];
    assert rest[0] == ws[1];
    JoinHead(rest);
    var j := Join(" ", rest);
    assert Join(" ", ws) == ws[0] + " " + j;
    assert !IsSpace(j[0]) by {
      assert j[0] == rest[0][0];
    }
    WordsOfSpaced(ws[0], j);
  }

  /** One word is its own only word. */
  lemma WordsOfWord(w: string)
    requires w != [] && NoSpace(w)
    ensures Words(w) == [w]
  {
    WordLengthOf(w, []);
    assert w + [] == w;
    WordsCons(w);
    assert w[..|w|] == w && w[|w|..] == [];
    assert LStrip([]) == [];
  }

  /** A word, one space, then text that starts with a word. */
  lemma WordsOfSpaced(w: string, j: string)
    requires w != [] && NoSpace(w) && j != [] && !IsSpace(j[0])
    ensures Words(w + " " + j) == [w] + Words(j)
  {
    var s := w + " " + j;
    assert s == w + (" " + j);
    WordLengthOf(w, " " + j);
    WordsCons(s);
    assert s[..|w|] == w && s[|w|..] == " " + j;
    WordsAfterSpace(j);
  }

  /** Collapsing whitespace twice is collapsing it once. */
  lemma CollapseIdempotent(m: string)
    ensures CollapseSpaces(CollapseSpaces(m)) == CollapseSpaces(m)
  {
    WordsAreWords(m);
    WordsOfJoin(Words(m));
  }

  lemma LowerNoUpper(s: string)
    ensures forall i :: 0 <= i < |Lower(s)| ==> !IsUpper(Lower(s)[i])
  {
  }

  /** Collapsing spaces keeps plain text plain. */
  lemma CollapsePlain(m: string)
    requires AllPlain(m)
    ensures AllPlain(CollapseSpaces(m))
  {
    CollapseFrom(m);
    var r := CollapseSpaces(m);
    forall i | 0 <= i < |r| ensures Plain(r[i]) {
      if r[i] == ' ' {
        SpacePlain();
      } else {
        PlainMember(m, r[i]);
      }
    }
  }

  lemma SpacePlain()
    ensures Plain(' ')
  {
  }

  lemma PlainMember(m: string, c: char)
    requires AllPlain(m) && c in m
    ensures Plain(c)
  {
    var j :| 0 <= j < |m| && m[j] == c;
  }

  /**
   * `normalize_text`: stripped, lower-cased, accents removed, whitespace
   * runs collapsed to one space.
   */
  function NormalizeText(s: string): (r: string)
    ensures s == "" ==> r == ""
    ensures Stripped(r) && SingleSpaced(r)
    ensures AllPlain(r)
  {
    if s == "" then ""
    else
      var l := Lower(Strip(s));
      LowerNoUpper(Strip(s));
      var m := DropMarks(l);
      CollapsePlain(m);
      CollapseSpaces(m)
  }

  /** Normalising normalised text changes nothing. */
  lemma NormalizeIdempotent(s: string)
    ensures NormalizeText(NormalizeText(s)) == NormalizeText(s)
  {
    var r := NormalizeText(s);
    if r != "" {
      var m := DropMarks(Lower(Strip(s)));
      assert r == CollapseSpaces(m);
      LowerPlain(r);
      DropMarksPlain(r);
      CollapseIdempotent(m);
    }
  }

  // ---------------------------------------------------------------------
  // Edit distance

  /** The edit distance between the first `i` characters of `a` and the first `j` of `b`. */
  function Dist(a: string, b: string, i: nat, j: nat): nat
    requires i <= |a| && j <= |b|
    decreases i + j
  {
    if i == 0 then j
    else if j == 0 then i
    else Min3(Dist(a, b, i, j - 1) + 1, Dist(a, b, i - 1, j) + 1,
              Dist(a, b, i - 1, j - 1) + (if a[i - 1] == b[j - 1] then 0 else 1))
  }

  function Min3(x: nat, y: nat, z: nat): (m: nat)
    ensures m <= x && m <= y && m <= z && (m == x || m == y || m == z)
  {
    if x <= y && x <= z then x else if y <= z then y else z
  }

  lemma Min3Swap(x: nat, y: nat, z: nat)
    ensures Min3(x, y, z) == Min3(y, x, z)
  {
  }

  /** Unit-cost edit distance: insertions, deletions and substitutions. */
  function Lev(a: string, b: string): nat
  {
    Dist(a, b, |a|, |b|)
  }

  lemma {:induction false} DistSelf(a: string, i: nat)
    requires i <= |a|
    ensures Dist(a, a, i, i) == 0
  {
    if i > 0 {
      DistSelf(a, i - 1);
    }
  }

  /** Only equal prefixes are at distance 0. */
  lemma {:induction false} DistZero(a: string, b: string, i: nat, j: nat)
    requires i <= |a| && j <= |b| && Dist(a, b, i, j) == 0
    ensures i == j && a[..i] == b[..j]
    decreases i + j
  {
    if i > 0 && j > 0 {
      DistZero(a, b, i - 1, j - 1);
      assert a[..i] == a[..i - 1] + [a[i - 1]];
      assert b[..j] == b[..j - 1] + [b[j - 1]];
    }
  }

  /** The distance is 0 exactly between equal strings. */
  lemma LevZero(a: string, b: string)
    ensures Lev(a, b) == 0 <==> a == b
  {
    if a == b {
      DistSelf(a, |a|);
    }
    if Lev(a, b) == 0 {
      DistZero(a, b, |a|, |b|);
      assert a == a[..|a|] && b == b[..|b|];
    }
  }

  lemma {:induction false} DistSymmetric(a: string, b: string, i: nat, j: nat)
    requires i <= |a| && j <= |b|
    ensures Dist(a, b, i, j) == Dist(b, a, j, i)
    decreases i + j
  {
    if i > 0 && j > 0 {
      DistSymmetric(a, b, i, j - 1);
      DistSymmetric(a, b, i - 1, j);
      DistSymmetric(a, b, i - 1, j - 1);
      DistSymmetricStep(a, b, i, j);
    }
  }

  /** The table entry is symmetric once its three neighbours are. */
  lemma DistSymmetricStep(a: string, b: string, i: nat, j: nat)
    requires 0 < i <= |a| && 0 < j <= |b|
    requires Dist(a, b, i, j - 1) == Dist(b, a, j - 1, i)
    requires Dist(a, b, i - 1, j) == Dist(b, a, j, i - 1)
    requires Dist(a, b, i - 1, j - 1) == Dist(b, a, j - 1, i - 1)
    ensures Dist(a, b, i, j) == Dist(b, a, j, i)
  {
    var left, up, diag := Dist(a, b, i, j - 1), Dist(a, b, i - 1, j), Dist(a, b, i - 1, j - 1);
    var cost := if a[i - 1] == b[j - 1] then 0 else 1;
    DistStep(a, b, i, j, left, up, diag);
    DistStep(b, a, j, i, up, left, diag);
    Min3Swap(left + 1, up + 1, diag + cost);
  }

  /** The distance does not depend on the order of its arguments. */
  lemma LevSymmetric(a: string, b: string)
    ensures Lev(a, b) == Lev(b, a)
  {
    DistSymmetric(a, b, |a|, |b|);
  }

  /** The larger of two lengths. */
  function Longer(i: nat, j: nat): (r: nat)
    ensures r >= i && r >= j && (r == i || r == j)
  {
    if i >= j then i else j
  }

  /** How far apart two lengths are. */
  function Gap(i: nat, j: nat): (r: nat)
    ensures i == j + r || j == i + r
  {
    if i >= j then i - j else j - i
  }

  /** No more edits than the longer prefix has characters. */
  lemma {:induction false} DistAtMostLonger(a: string, b: string, i: nat, j: nat)
    requires i <= |a| && j <= |b|
    ensures Dist(a, b, i, j) <= Longer(i, j)
    decreases i + j
  {
    if i > 0 && j > 0 {
      DistAtMostLonger(a, b, i - 1, j - 1);
      DistUpperStep(a, b, i, j);
    }
  }

  /** The table entry is at most one more than its diagonal neighbour. */
  lemma DistUpperStep(a: string, b: string, i: nat, j: nat)
    requires 0 < i <= |a| && 0 < j <= |b|
    requires Dist(a, b, i - 1, j - 1) <= Longer(i - 1, j - 1)
    ensures Dist(a, b, i, j) <= Longer(i, j)
  {
    var left, up, diag := Dist(a, b, i, j - 1), Dist(a, b, i - 1, j), Dist(a, b, i - 1, j - 1);
    var cost := if a[i - 1] == b[j - 1] then 0 else 1;
    DistStep(a, b, i, j, left, up, diag);
    assert Min3(left + 1, up + 1, diag + cost) <= diag + 1;
  }

  /** No fewer edits than the difference of the prefix lengths. */
  lemma {:induction false} DistAtLeastGap(a: string, b: string, i: nat, j: nat)
    requires i <= |a| && j <= |b|
    ensures Gap(i, j) <= Dist(a, b, i, j)
    decreases i + j
  {
    if i > 0 && j > 0 {
      DistAtLeastGap(a, b, i, j - 1);
      DistAtLeastGap(a, b, i - 1, j);
      DistAtLeastGap(a, b, i - 1, j - 1);
      DistLowerStep(a, b, i, j);
    }
  }

  /** The table entry keeps the lower bound once its three neighbours do. */
  lemma DistLowerStep(a: string, b: string, i: nat, j: nat)
    requires 0 < i <= |a| && 0 < j <= |b|
    requires Gap(i, j - 1) <= Dist(a, b, i, j - 1)
    requires Gap(i - 1, j) <= Dist(a, b, i - 1, j)
    requires Gap(i - 1, j - 1) <= Dist(a, b, i - 1, j - 1)
    ensures Gap(i, j) <= Dist(a, b, i, j)
  {
    var left, up, diag := Dist(a, b, i, j - 1), Dist(a, b, i - 1, j), Dist(a, b, i - 1, j - 1);
    var cost := if a[i - 1] == b[j - 1] then 0 else 1;
    DistStep(a, b, i, j, left, up, diag);
    Min3AtLeast(Gap(i, j), left + 1, up + 1, diag + cost);
  }

  lemma Min3AtLeast(g: nat, x: nat, y: nat, z: nat)
    requires g <= x && g <= y && g <= z
    ensures g <= Min3(x, y, z)
  {
  }

  /** The distance is at least the difference of the lengths and at most the longer length. */
  lemma LevBounds(a: string, b: string)
    ensures Lev(a, b) <= if |a| >= |b| then |a| else |b|
    ensures Lev(a, b) >= if |a| >= |b| then |a| - |b| else |b| - |a|
  {
    DistAtMostLonger(a, b, |a|, |b|);
    DistAtLeastGap(a, b, |a|, |b|);
  }

  /** The recurrence that fills the table, read from the three neighbouring entries. */
  lemma DistStep(a: string, b: string, i: nat, j: nat, left: nat, up: nat, diag: nat)
    requires 0 < i <= |a| && 0 < j <= |b|
    requires left == Dist(a, b, i, j - 1) && up == Dist(a, b, i - 1, j) && diag == Dist(a, b, i - 1, j - 1)
    ensures Dist(a, b, i, j) == Min3(left + 1, up + 1, diag + if a[i - 1] == b[j - 1] then 0 else 1)
  {
  }

  /** One more entry of row `i` of the table. */
  lemma RowSnoc(a: string, b: string, i: nat, row: seq<nat>, x: nat)
    requires i <= |a| && |row| <= |b|
    requires forall k :: 0 <= k < |row| ==> row[k] == Dist(a, b, i, k)
    requires x == Dist(a, b, i, |row|)
    ensures forall k :: 0 <= k < |row + [x]| ==> (row + [x])[k] == Dist(a, b, i, k)
  {
  }

  /**
   * `levenshtein`: equal strings and empty strings first, then the
   * two-row table, row `i` holding the distances from `a[..i]`.
   */
  method Levenshtein(a: string, b: string) returns (d: nat)
    ensures d == Lev(a, b)
  {
    if a == b {
      LevZero(a, b);
      return 0;
    }
    if |a| == 0 {
      return |b|;
    }
    if |b| == 0 {
      return |a|;
    }
    var prev: seq<nat> := seq(|b| + 1, j => j);
    var i := 1;
    while i <= |a|
      invariant 1 <= i <= |a| + 1
      invariant |prev| == |b| + 1
      invariant forall j :: 0 <= j <= |b| ==> prev[j] == Dist(a, b, i - 1, j)
    {
      prev := NextRow(a, b, i, prev);
      i := i + 1;
    }
    d := prev[|b|];
  }

  /** Row `i` of the table, filled left to right from row `i - 1`. */
  method NextRow(a: string, b: string, i: nat, prev: seq<nat>) returns (curr: seq<nat>)
    requires 1 <= i <= |a| && |prev| == |b| + 1
    requires forall j :: 0 <= j <= |b| ==> prev[j] == Dist(a, b, i - 1, j)
    ensures |curr| == |b| + 1
    ensures forall k :: 0 <= k <= |b| ==> curr[k] == Dist(a, b, i, k)
  {
    curr := [i];
    var j := 1;
    while j <= |b|
      invariant 1 <= j <= |b| + 1
      invariant |curr| == j
      invariant forall k :: 0 <= k < |curr| ==> curr[k] == Dist(a, b, i, k)
    {
      var cost := if a[i - 1] == b[j - 1] then 0 else 1;
      var x := Min3(curr[j - 1] + 1, prev[j] + 1, prev[j - 1] + cost);
      DistStep(a, b, i, j, curr[j - 1], prev[j], prev[j - 1]);
      RowSnoc(a, b, i, curr, x);
      curr := curr + [x];
      j := j + 1;
    }
  }

  // ---------------------------------------------------------------------
  // Similarity

  /** `singularize_token`: a plural `es` or `s` dropped from tokens long enough, "hass" excepted. */
  function Singularize(tok: string): (r: string)
    ensures |tok| < 3 || tok == "hass" ==> r == tok
    ensures |r| <= |tok| && r == tok[..|r|] && |tok| - 2 <= |r|
    ensures |r| < |tok| ==> tok[|tok| - 1] == 's' && 3 <= |r|
    ensures |r| == |tok| - 2 ==> tok[|tok| - 2..] == "es"
  {
    if |tok| < 3 then tok
    else if tok == "hass" then tok
    else if |tok| >= 2 && tok[|tok| - 2..] == "es" && |tok| > 4 then tok[..|tok| - 2]
    else if tok[|tok| - 1] == 's' && |tok| > 3 then tok[..|tok| - 1]
    else tok
  }

  /** The singular forms of the words of `s`. */
  function Tokens(s: string): set<string>
  {
    set w | w in Words(s) :: Singularize(w)
  }

  /** Python's `int(x)`: truncation toward zero. */
  function Trunc(x: real): (n: int)
    ensures x >= 0.0 ==> n as real <= x < n as real + 1.0
  {
    if x >= 0.0 then x.Floor else -((-x).Floor)
  }

  /** The token-overlap rungs of the ladder, when they apply. */
  function TokenScore(qa: string, ta: string): (r: int)
    ensures r == 0 || r == 75 || r == 85
  {
    var qs := Tokens(qa);
    var ts := Tokens(ta);
    if |qs| > 0 && |ts| > 0 then
      var union := if |qs + ts| == 0 then 1 else |qs + ts|;
      var jacc := (|qs * ts| as real) / (union as real);
      if jacc >= 0.66 || qs <= ts || ts <= qs then 85
      else if jacc >= 0.4 then 75
      else 0
    else 0
  }

  /** `int(100 * (1 - dist / max_len))`. */
  function EditScore(qa: string, ta: string): int
  {
    var maxLen := if |qa| >= |ta| then |qa| else |ta|;
    var m := if maxLen == 0 then 1 else maxLen;
    Trunc(100.0 * (1.0 - (Lev(qa, ta) as real) / (m as real)))
  }

  /**
   * `similarity_score`: 0 for empty text, 100 for equal normalised text,
   * 90 or 80 for a contained query, 85 or 75 for token overlap, and the
   * edit-distance percentage otherwise.
   */
  function SimilarityScore(query: string, target: string): (r: int)
    ensures 0 <= r <= 100
    ensures r == 100 <==> NormalizeText(query) == NormalizeText(target) && NormalizeText(query) != ""
  {
    var qa := NormalizeText(query);
    var ta := NormalizeText(target);
    if qa == "" || ta == "" then 0
    else if qa == ta then 100
    else if Substring(ta, qa) then (if |qa| >= 3 then 90 else 80)
    else if TokenScore(qa, ta) != 0 then TokenScore(qa, ta)
    else
      EditScoreBelow(qa, ta);
      EditScore(qa, ta)
  }

  /** The edit-distance rung of two different strings lies in [0, 100). */
  lemma EditScoreBelow(qa: string, ta: string)
    requires qa != ta
    ensures 0 <= EditScore(qa, ta) < 100
  {
    LevBounds(qa, ta);
    LevZero(qa, ta);
    var maxLen := if |qa| >= |ta| then |qa| else |ta|;
    var d := Lev(qa, ta) as real;
    var m := maxLen as real;
    assert 1.0 <= d <= m;
    var q := d / m;
    RatioBounds(d, m);
    var x := 100.0 * (1.0 - q);
    assert 0.0 <= x < 100.0;
    assert EditScore(qa, ta) == Trunc(x);
  }

  lemma RatioBounds(d: real, m: real)
    requires 1.0 <= d <= m
    ensures 0.0 < d / m <= 1.0
  {
    var q := d / m;
    assert q * m == d;
  }

  /** Empty normalised text on either side scores 0. */
  lemma ScoreEmpty(query: string, target: string)
    requires NormalizeText(query) == "" || NormalizeText(target) == ""
    ensures SimilarityScore(query, target) == 0
  {
  }

  /** A query contained in a different target scores 90, or 80 when shorter than three characters. */
  lemma ScoreContained(query: string, target: string)
    requires NormalizeText(query) != "" && NormalizeText(query) != NormalizeText(target)
    requires Contains(NormalizeText(target), NormalizeText(query))
    ensures SimilarityScore(query, target) == if |NormalizeText(query)| >= 3 then 90 else 80
  {
  }
}
