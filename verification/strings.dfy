/** String helpers shared by the TypeScript and the Python code: ASCII
    whitespace classes, lower-casing, trimming, collapsing whitespace runs,
    decimal rendering, JavaScript's UTF-16 string length and the character
    order of JavaScript's default sort.
    Only the ASCII part of each language's character classes is modelled. */
module Strings {

  /** Whitespace as JavaScript's `trim()` and the regex class `\s` see it. */
  predicate IsJsSpace(c: char) {
    c == ' ' || c == '\t' || c == '\n' || c == '\U{B}' || c == '\U{C}' || c == '\r'
  }

  /** Whitespace as Python's `str.strip()`, `str.split()` and `\s` see it: the
      JavaScript set plus the four separators U+001C..U+001F. */
  predicate IsPySpace(c: char) {
    IsJsSpace(c) || ('\U{1C}' <= c <= '\U{1F}')
  }

  predicate IsDigit(c: char) {
    '0' <= c <= '9'
  }

  predicate IsUpper(c: char) {
    'A' <= c <= 'Z'
  }

  function LowerChar(c: char): char {
    if IsUpper(c) then (c as int + 32) as char else c
  }

  /** ASCII lower-casing (`toLowerCase()` / `lower()` restricted to ASCII). */
  function Lower(s: string): (r: string)
    ensures |r| == |s|
    ensures forall i | 0 <= i < |s| :: r[i] == LowerChar(s[i])
  {
    seq(|s|, i requires 0 <= i < |s| => LowerChar(s[i]))
  }

  predicate NoUpper(s: string) {
    forall i | 0 <= i < |s| :: !IsUpper(s[i])
  }

  lemma LowerNoUpper(s: string)
    ensures NoUpper(Lower(s))
    ensures NoUpper(s) ==> Lower(s) == s
  {
  }

  // ---------------------------------------------------------------------------
  // Trimming

  function TrimStart(s: string, sp: char -> bool): (r: string)
    ensures |r| <= |s| && r == s[|s| - |r|..]
    ensures |r| > 0 ==> !sp(r[0])
    ensures |s| > 0 && sp(s[0]) ==> |r| < |s|
    ensures |s| > 0 && !sp(s[0]) ==> r == s
  {
    if |s| > 0 && sp(s[0]) then TrimStart(s[1..], sp) else s
  }

  function TrimEnd(s: string, sp: char -> bool): (r: string)
    ensures |r| <= |s| && r == s[..|r|]
    ensures |r| > 0 ==> !sp(r[|r| - 1])
    ensures |s| > 0 && !sp(s[|s| - 1]) ==> r == s
  {
    if |s| > 0 && sp(s[|s| - 1]) then TrimEnd(s[..|s| - 1], sp) else s
  }

  /** Neither end of `s` is a whitespace character of class `sp`. */
  predicate NoEdgeSpace(s: string, sp: char -> bool) {
    |s| > 0 ==> !sp(s[0]) && !sp(s[|s| - 1])
  }

  /** Removes whitespace of class `sp` at both ends. The result is a contiguous
      slice of `s` with no whitespace at either end, and it is `s` itself when
      `s` had none there. */
  function Trim(s: string, sp: char -> bool): (r: string)
    ensures NoEdgeSpace(r, sp)
    ensures exists a: nat, b: nat :: a <= b <= |s| && r == s[a..b]
    ensures NoEdgeSpace(s, sp) ==> r == s
  {
    var t := TrimStart(s, sp);
    var r := TrimEnd(t, sp);
    assert r == s[|s| - |t|..][..|r|] == s[|s| - |t|..|s| - |t| + |r|];
    assert |r| > 0 ==> r[0] == t[0];
    r
  }

  /** JavaScript `s.trim()`. */
  function JsTrim(s: string): string {
    Trim(s, IsJsSpace)
  }

  /** Python `s.strip()`. */
  function PyStrip(s: string): string {
    Trim(s, IsPySpace)
  }

  /** JavaScript's `s.length`: UTF-16 code units, of which a character
      outside the Basic Multilingual Plane takes two. */
  function Utf16Length(s: string): (n: nat)
    ensures |s| <= n <= 2 * |s|
  {
    if |s| == 0 then 0 else (if s[0] as int >= 0x1_0000 then 2 else 1) + Utf16Length(s[1..])
  }

  /** A string of characters beyond the Basic Multilingual Plane takes two
      code units per character. */
  lemma {:induction false} Utf16LengthAstral(s: string)
    requires forall i | 0 <= i < |s| :: (s[i] as int) >= 0x1_0000
    ensures Utf16Length(s) == 2 * |s|
  {
    if |s| > 0 {
      assert forall i | 0 <= i < |s[1..]| :: s[1..][i] == s[i + 1];
      Utf16LengthAstral(s[1..]);
    }
  }

  /** The UTF-16 length equals the number of characters exactly when every
      character lies in the Basic Multilingual Plane. */
  lemma {:induction false} Utf16LengthBmp(s: string)
    ensures Utf16Length(s) == |s| <==> forall i | 0 <= i < |s| :: (s[i] as int) < 0x1_0000
  {
    if |s| > 0 {
      Utf16LengthBmp(s[1..]);
      assert forall i | 1 <= i < |s| :: s[i] == s[1..][i - 1];
    }
  }

  // ---------------------------------------------------------------------------
  // Collapsing whitespace runs: `s.replace(/\s+/g, ' ')` and `re.sub(r"\s+", " ", s)`

  function Collapse(s: string, sp: char -> bool): (r: string)
    decreases |s|
  {
    if |s| == 0 then ""
    else if sp(s[0]) then " " + Collapse(TrimStart(s, sp), sp)
    else [s[0]] + Collapse(s[1..], sp)
  }

  /** No two adjacent characters of `s` are whitespace. */
  predicate NoDoubleSpace(s: string, sp: char -> bool) {
    forall i | 0 <= i < |s| - 1 :: !(sp(s[i]) && sp(s[i + 1]))
  }

  /** Every whitespace character of `s` is a plain space. */
  predicate OnlyPlainSpaces(s: string, sp: char -> bool) {
    forall i | 0 <= i < |s| :: sp(s[i]) ==> s[i] == ' '
  }

  lemma {:induction false} CollapseHead(s: string, sp: char -> bool)
    requires |s| > 0 && !sp(s[0])
    ensures |Collapse(s, sp)| > 0 && Collapse(s, sp)[0] == s[0]
  {
  }

  lemma ConsNoDouble(x: char, c: string, sp: char -> bool)
    requires NoDoubleSpace(c, sp)
    requires |c| == 0 || !sp(x) || !sp(c[0])
    ensures NoDoubleSpace([x] + c, sp)
  {
    var r := [x] + c;
    forall i | 0 <= i < |r| - 1
      ensures !(sp(r[i]) && sp(r[i + 1]))
    {
      if i > 0 {
        assert r[i] == c[i - 1] && r[i + 1] == c[i];
      }
    }
  }

  lemma ConsPlain(x: char, c: string, sp: char -> bool, s: string)
    requires OnlyPlainSpaces(c, sp)
    requires sp(x) ==> x == ' '
    requires forall i | 0 <= i < |c| :: c[i] == ' ' || c[i] in s
    requires x == ' ' || x in s
    ensures OnlyPlainSpaces([x] + c, sp)
    ensures forall i | 0 <= i < |[x] + c| :: ([x] + c)[i] == ' ' || ([x] + c)[i] in s
  {
    var r := [x] + c;
    forall i | 0 <= i < |r|
      ensures (sp(r[i]) ==> r[i] == ' ') && (r[i] == ' ' || r[i] in s)
    {
      if i > 0 {
        assert r[i] == c[i - 1];
      }
    }
  }

  /** Every character of `c` is a plain space or a character of `s`. */
  predicate FromInput(c: string, s: string) {
    forall i | 0 <= i < |c| :: c[i] == ' ' || c[i] in s
  }

  /** The collapsed string has single plain spaces only, and every other
      character comes from the input. */
  lemma CollapseShape(s: string, sp: char -> bool)
    requires sp(' ')
    ensures NoDoubleSpace(Collapse(s, sp), sp)
    ensures OnlyPlainSpaces(Collapse(s, sp), sp)
    ensures forall i | 0 <= i < |Collapse(s, sp)| :: Collapse(s, sp)[i] == ' ' || Collapse(s, sp)[i] in s
  {
    CollapseNoDouble(s, sp);
    CollapseChars(s, sp);
  }

  lemma {:induction false} CollapseNoDouble(s: string, sp: char -> bool)
    requires sp(' ')
    ensures NoDoubleSpace(Collapse(s, sp), sp)
    decreases |s|
  {
    if |s| > 0 {
      if sp(s[0]) {
        var t := TrimStart(s, sp);
        CollapseNoDouble(t, sp);
        if |t| > 0 {
          CollapseHead(t, sp);
        }
        assert Collapse(s, sp) == [' '] + Collapse(t, sp);
        ConsNoDouble(' ', Collapse(t, sp), sp);
      } else {
        CollapseNoDouble(s[1..], sp);
        assert Collapse(s, sp) == [s[0]] + Collapse(s[1..], sp);
        ConsNoDouble(s[0], Collapse(s[1..], sp), sp);
      }
    }
  }

  /** A character of a suffix of `s` is a character of `s`. */
  lemma FromSuffix(c: string, t: string, s: string)
    requires FromInput(c, t) && |t| <= |s| && t == s[|s| - |t|..]
    ensures FromInput(c, s)
  {
    forall i | 0 <= i < |c| && c[i] != ' '
      ensures c[i] in s
    {
      var k :| 0 <= k < |t| && t[k] == c[i];
      assert t[k] == s[|s| - |t| + k];
    }
  }

  lemma {:induction false} CollapseChars(s: string, sp: char -> bool)
    requires sp(' ')
    ensures OnlyPlainSpaces(Collapse(s, sp), sp)
    ensures FromInput(Collapse(s, sp), s)
    decreases |s|
  {
    if |s| > 0 {
      if sp(s[0]) {
        var t := TrimStart(s, sp);
        var c := Collapse(t, sp);
        CollapseChars(t, sp);
        FromSuffix(c, t, s);
        assert Collapse(s, sp) == [' '] + c;
        ConsPlain(' ', c, sp, s);
      } else {
        var c := Collapse(s[1..], sp);
        CollapseChars(s[1..], sp);
        FromSuffix(c, s[1..], s);
        assert Collapse(s, sp) == [s[0]] + c;
        ConsPlain(s[0], c, sp, s);
      }
    }
  }

  lemma {:induction false} CollapseLast(s: string, sp: char -> bool)
    requires |s| > 0 && !sp(s[|s| - 1])
    ensures |Collapse(s, sp)| > 0 && Collapse(s, sp)[|Collapse(s, sp)| - 1] == s[|s| - 1]
    decreases |s|
  {
    if sp(s[0]) {
      var t := TrimStart(s, sp);
      assert |t| > 0 by {
        if |t| == 0 {
          assert t == s[|s|..];
          // TrimStart only drops whitespace, and the last character is not whitespace
          TrimStartKeepsNonSpace(s, sp, |s| - 1);
        }
      }
      CollapseLast(t, sp);
      assert t[|t| - 1] == s[|s| - 1];
    } else if |s| > 1 {
      CollapseLast(s[1..], sp);
    }
  }

  lemma {:induction false} TrimStartKeepsNonSpace(s: string, sp: char -> bool, k: nat)
    requires k < |s| && !sp(s[k])
    ensures |s| - |TrimStart(s, sp)| <= k
    decreases |s|
  {
    if |s| > 0 && sp(s[0]) {
      assert k > 0;
      TrimStartKeepsNonSpace(s[1..], sp, k - 1);
    }
  }

  /** Collapsing keeps a string free of whitespace at its ends. */
  lemma CollapseNoEdge(s: string, sp: char -> bool)
    requires NoEdgeSpace(s, sp)
    ensures NoEdgeSpace(Collapse(s, sp), sp)
  {
    if |s| > 0 {
      CollapseHead(s, sp);
      CollapseLast(s, sp);
    }
  }

  /** Collapsing is the identity on a string whose whitespace is already
      single plain spaces. */
  lemma {:induction false} CollapseFixed(s: string, sp: char -> bool)
    requires NoDoubleSpace(s, sp) && OnlyPlainSpaces(s, sp)
    ensures Collapse(s, sp) == s
    decreases |s|
  {
    if |s| > 0 {
      var t := s[1..];
      assert NoDoubleSpace(t, sp) && OnlyPlainSpaces(t, sp) by {
        forall i | 0 <= i < |t| - 1
          ensures !(sp(t[i]) && sp(t[i + 1]))
        {
          assert t[i] == s[i + 1] && t[i + 1] == s[i + 2];
        }
      }
      CollapseFixed(t, sp);
      if sp(s[0]) {
        assert |t| > 0 ==> !sp(t[0]) by {
          if |t| > 0 { assert t[0] == s[1]; }
        }
        assert TrimStart(s, sp) == TrimStart(t, sp) == t;
        assert s == [' '] + t;
      } else {
        assert s == [s[0]] + t;
      }
    }
  }

  lemma LowerKeepsSpaces(s: string)
    ensures forall i | 0 <= i < |s| :: IsJsSpace(Lower(s)[i]) == IsJsSpace(s[i])
    ensures NoEdgeSpace(s, IsJsSpace) ==> NoEdgeSpace(Lower(s), IsJsSpace)
  {
  }

  // ---------------------------------------------------------------------------
  // Prefixes, suffixes, infixes, splitting and joining

  predicate StartsWith(s: string, p: string) {
    |p| <= |s| && s[..|p|] == p
  }

  predicate EndsWith(s: string, p: string) {
    |p| <= |s| && s[|s| - |p|..] == p
  }

  /** `sub` occurs in `s` at position `i`. */
  predicate OccursAt(s: string, sub: string, i: int) {
    0 <= i <= |s| - |sub| && s[i..i + |sub|] == sub
  }

  predicate Contains(s: string, sub: string) {
    exists i | 0 <= i <= |s| - |sub| :: OccursAt(s, sub, i)
  }

  /** `parts.join(sep)` / `sep.join(parts)`. */
  function Join(parts: seq<string>, sep: string): string {
    if |parts| == 0 then ""
    else if |parts| == 1 then parts[0]
    else parts[0] + sep + Join(parts[1..], sep)
  }

  lemma ContainsInfix(a: string, b: string, c: string)
    ensures Contains(a + b + c, b)
  {
    assert (a + b + c)[|a|..|a| + |b|] == b;
    assert OccursAt(a + b + c, b, |a|);
  }

  lemma ContainsWithin(a: string, b: string, c: string, x: string)
    requires Contains(b, x)
    ensures Contains(a + b + c, x)
  {
    var i :| 0 <= i <= |b| - |x| && OccursAt(b, x, i);
    assert (a + b + c)[|a| + i..|a| + i + |x|] == b[i..i + |x|];
    assert OccursAt(a + b + c, x, |a| + i);
  }

  /** Each part followed by the separator, all concatenated. */
  function Terminated(parts: seq<string>, sep: string): string {
    if |parts| == 0 then "" else parts[0] + sep + Terminated(parts[1..], sep)
  }

  lemma {:induction false} TerminatedConcat(a: seq<string>, b: seq<string>, sep: string)
    ensures Terminated(a + b, sep) == Terminated(a, sep) + Terminated(b, sep)
  {
    if |a| == 0 {
      assert a + b == b;
    } else {
      assert (a + b)[1..] == a[1..] + b;
      TerminatedConcat(a[1..], b, sep);
    }
  }

  /** Joining a list splits into its leading parts, each followed by the
      separator, and the join of the rest. */
  lemma {:induction false} JoinSplit(p: seq<string>, t: seq<string>, sep: string)
    requires |t| > 0
    ensures Join(p + t, sep) == Terminated(p, sep) + Join(t, sep)
  {
    if |p| > 0 {
      JoinSplit(p[1..], t, sep);
      assert (p + t)[1..] == p[1..] + t;
      assert |p + t| > 1;
    } else {
      assert p + t == t;
    }
  }

  lemma ContainsTrans(a: string, b: string, c: string)
    requires Contains(a, b) && Contains(b, c)
    ensures Contains(a, c)
  {
    var i :| 0 <= i <= |a| - |b| && OccursAt(a, b, i);
    var j :| 0 <= j <= |b| - |c| && OccursAt(b, c, j);
    forall t | 0 <= t < |c|
      ensures a[i + j + t] == c[t]
    {
      assert a[i..i + |b|][j + t] == b[j + t];
      assert b[j..j + |c|][t] == b[j + t];
    }
    assert a[i + j..i + j + |c|] == c;
    assert OccursAt(a, c, i + j);
  }

  /** A join starts with its first part. */
  lemma JoinHead(parts: seq<string>, sep: string)
    requires |parts| > 0
    ensures exists rest: string :: Join(parts, sep) == parts[0] + rest
  {
    if |parts| == 1 {
      assert Join(parts, sep) == parts[0] + "";
    } else {
      assert Join(parts, sep) == parts[0] + (sep + Join(parts[1..], sep));
    }
  }

  /** Every part of a join occurs in it. */
  lemma JoinContains(parts: seq<string>, sep: string, k: nat)
    requires k < |parts|
    ensures Contains(Join(parts, sep), parts[k])
  {
    assert parts == parts[..k] + parts[k..];
    JoinSplit(parts[..k], parts[k..], sep);
    JoinHead(parts[k..], sep);
    var rest :| Join(parts[k..], sep) == parts[k] + rest;
    var pre := Terminated(parts[..k], sep);
    assert Join(parts, sep) == pre + parts[k] + rest;
    ContainsInfix(pre, parts[k], rest);
  }

  /** A join begins with its first part and ends with its last. */
  lemma JoinEnds(parts: seq<string>, sep: string)
    requires |parts| > 0
    ensures StartsWith(Join(parts, sep), parts[0])
    ensures EndsWith(Join(parts, sep), parts[|parts| - 1])
  {
    JoinHead(parts, sep);
    var rest :| Join(parts, sep) == parts[0] + rest;
    assert (parts[0] + rest)[..|parts[0]|] == parts[0];
    var n := |parts| - 1;
    assert parts == parts[..n] + [parts[n]];
    JoinSplit(parts[..n], [parts[n]], sep);
    var j := Join(parts, sep);
    assert j == Terminated(parts[..n], sep) + parts[n];
    assert j[|j| - |parts[n]|..] == parts[n];
  }

  /** The text before the first `c`: `s.split(c)[0]`. */
  function BeforeFirst(s: string, c: char): (r: string)
    ensures StartsWith(s, r) && c !in r
    ensures |r| < |s| ==> s[|r|] == c
  {
    if |s| == 0 || s[0] == c then ""
    else [s[0]] + BeforeFirst(s[1..], c)
  }

  /** The number of maximal runs of non-whitespace characters: `len(s.split())`. */
  function WordCount(s: string): nat
    decreases |s|
  {
    var t := TrimStart(s, IsPySpace);
    if |t| == 0 then 0
    else 1 + WordCount(DropWord(t))
  }

  function DropWord(s: string): (r: string)
    ensures |r| <= |s|
    ensures |s| > 0 && !IsPySpace(s[0]) ==> |r| < |s|
  {
    if |s| > 0 && !IsPySpace(s[0]) then DropWord(s[1..]) else s
  }

  // ---------------------------------------------------------------------------
  // Decimal rendering (`String(n)` / `${n}` / `f"{n}"` for integers)

  function DigitChar(d: int): char
    requires 0 <= d < 10
  {
    ('0' as int + d) as char
  }

  function NatToString(n: nat): (r: string)
    ensures |r| > 0
    ensures forall i | 0 <= i < |r| :: IsDigit(r[i])
    decreases n
  {
    if n < 10 then [DigitChar(n)] else NatToString(n / 10) + [DigitChar(n % 10)]
  }

  function IntToString(i: int): string {
    if i < 0 then "-" + NatToString(-i) else NatToString(i)
  }

  /** The value of a string of ASCII digits. */
  function DigitsValue(s: string): nat
    requires forall i | 0 <= i < |s| :: IsDigit(s[i])
  {
    if |s| == 0 then 0
    else
      assert IsDigit(s[|s| - 1]);
      DigitsValue(s[..|s| - 1]) * 10 + (s[|s| - 1] as int - '0' as int)
  }

  /** Reading back the decimal digits of `n` gives `n`. */
  lemma {:induction false} NatToStringValue(n: nat)
    ensures DigitsValue(NatToString(n)) == n
    decreases n
  {
    var r := NatToString(n);
    if n < 10 {
      assert r[..|r| - 1] == [];
    } else {
      NatToStringValue(n / 10);
      assert r[..|r| - 1] == NatToString(n / 10);
    }
  }

  // ---------------------------------------------------------------------------
  // The order of JavaScript's default `Array.prototype.sort` on strings

  /** `a` sorts no later than `b` under character order, which is
      JavaScript's UTF-16 code-unit order on strings without characters
      beyond the Basic Multilingual Plane. */
  predicate LexLe(a: string, b: string)
    decreases |a|
  {
    |a| == 0 || (|b| > 0 && (a[0] < b[0] || (a[0] == b[0] && LexLe(a[1..], b[1..]))))
  }

  lemma {:induction false} LexTotal(a: string, b: string)
    ensures LexLe(a, b) || LexLe(b, a)
    decreases |a|
  {
    if |a| > 0 && |b| > 0 && a[0] == b[0] {
      LexTotal(a[1..], b[1..]);
    }
  }

  lemma {:induction false} LexTrans(a: string, b: string, c: string)
    requires LexLe(a, b) && LexLe(b, c)
    ensures LexLe(a, c)
    decreases |a|
  {
    if |a| > 0 && a[0] == b[0] && b[0] == c[0] {
      LexTrans(a[1..], b[1..], c[1..]);
    }
  }

  lemma {:induction false} LexAntisym(a: string, b: string)
    requires LexLe(a, b) && LexLe(b, a)
    ensures a == b
    decreases |a|
  {
    if |a| > 0 {
      LexAntisym(a[1..], b[1..]);
      assert a == [a[0]] + a[1..];
      assert b == [b[0]] + b[1..];
    }
  }

  predicate LexSorted(s: seq<string>) {
    forall i, j | 0 <= i < j < |s| :: LexLe(s[i], s[j])
  }

  function LexInsert(x: string, s: seq<string>): (r: seq<string>)
    ensures |r| == |s| + 1
    ensures multiset(r) == multiset(s) + multiset{x}
  {
    if |s| == 0 || LexLe(x, s[0]) then [x] + s
    else
      assert s == [s[0]] + s[1..];
      [s[0]] + LexInsert(x, s[1..])
  }

  /** `[...ids].sort()`: the ids in ascending character order. */
  function LexSort(s: seq<string>): (r: seq<string>)
    ensures multiset(r) == multiset(s)
  {
    if |s| == 0 then []
    else
      assert s == [s[0]] + s[1..];
      LexInsert(s[0], LexSort(s[1..]))
  }

  lemma {:induction false} LexInsertSorted(x: string, s: seq<string>)
    requires LexSorted(s)
    ensures LexSorted(LexInsert(x, s))
  {
    if |s| == 0 || LexLe(x, s[0]) {
      var r := [x] + s;
      forall i, j | 0 <= i < j < |r|
        ensures LexLe(r[i], r[j])
      {
        if i == 0 && j > 1 {
          LexTrans(x, s[0], s[j - 1]);
        }
      }
    } else {
      var t := LexInsert(x, s[1..]);
      LexInsertSorted(x, s[1..]);
      LexTotal(x, s[0]);
      var r := [s[0]] + t;
      forall k | 0 <= k < |t|
        ensures LexLe(s[0], t[k])
      {
        assert t[k] in multiset(t);
        if t[k] != x {
          assert t[k] in multiset(s[1..]);
          var j :| 0 <= j < |s[1..]| && s[1..][j] == t[k];
          assert s[j + 1] == t[k];
        }
      }
      forall i, j | 0 <= i < j < |r|
        ensures LexLe(r[i], r[j])
      {
        if i > 0 {
          assert r[i] == t[i - 1] && r[j] == t[j - 1];
        }
      }
    }
  }

  lemma {:induction false} LexSortSorted(s: seq<string>)
    ensures LexSorted(LexSort(s))
  {
    if |s| > 0 {
      LexSortSorted(s[1..]);
      LexInsertSorted(s[0], LexSort(s[1..]));
    }
  }

  /** The first element of a sorted list is no greater than any element. */
  lemma LexSortedFirst(a: seq<string>, x: string)
    requires LexSorted(a) && x in a
    ensures LexLe(a[0], x)
  {
    var i :| 0 <= i < |a| && a[i] == x;
    if i == 0 {
      LexTotal(x, x);
    }
  }

  /** Two sorted arrangements of the same multiset start alike. */
  lemma LexSortedHeads(a: seq<string>, b: seq<string>)
    requires LexSorted(a) && LexSorted(b) && multiset(a) == multiset(b) && |a| > 0
    ensures |b| == |a| && a[0] == b[0]
  {
    assert |b| == |multiset(b)| == |multiset(a)| == |a|;
    assert a[0] in multiset(b) && b[0] in multiset(a);
    LexSortedFirst(b, a[0]);
    LexSortedFirst(a, b[0]);
    LexAntisym(a[0], b[0]);
  }

  /** Dropping the first element keeps a list sorted and removes it from
      the multiset. */
  lemma LexSortedTail(a: seq<string>)
    requires LexSorted(a) && |a| > 0
    ensures LexSorted(a[1..]) && multiset(a[1..]) == multiset(a) - multiset{a[0]}
  {
    assert a == [a[0]] + a[1..];
  }

  /** Two sorted arrangements of the same multiset of strings are equal. */
  lemma {:induction false} LexSortedUnique(a: seq<string>, b: seq<string>)
    requires LexSorted(a) && LexSorted(b)
    requires multiset(a) == multiset(b)
    ensures a == b
  {
    if |a| == 0 {
      assert |b| == |multiset(b)| == 0;
    } else {
      assert |b| == |a| && a[0] == b[0] by {
        LexSortedHeads(a, b);
      }
      assert a[1..] == b[1..] by {
        LexSortedHeads(a, b);
        LexSortedTail(a);
        LexSortedTail(b);
        LexSortedUnique(a[1..], b[1..]);
      }
      assert a == [a[0]] + a[1..] && b == [b[0]] + b[1..];
    }
  }

  /** Sorting forgets the input order: permutations sort to the same list. */
  lemma LexSortPermutation(a: seq<string>, b: seq<string>)
    requires multiset(a) == multiset(b)
    ensures LexSort(a) == LexSort(b)
  {
    LexSortSorted(a);
    LexSortSorted(b);
    LexSortedUnique(LexSort(a), LexSort(b));
  }
}
