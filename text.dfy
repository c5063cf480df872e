/**
 * The handful of Python string operations the popups use to read the output
 * of command-line tools (`str.split`, `str.strip`, `str.lower`, `str.replace`,
 * `int()` and `str()` on integers), written out on `string` (= `seq<char>`).
 */
module Text {
  import opened Wrappers

  // ---------------------------------------------------------------------------
  // Character classes
  // ---------------------------------------------------------------------------

  /** The characters for which Python's `str.isspace()` holds; `strip()` and
      `split()` without arguments treat exactly these as whitespace. */
  predicate IsSpace(c: char) {
    var k := c as int;
    (0x09 <= k <= 0x0D) || (0x1C <= k <= 0x20) || k == 0x85 || k == 0xA0 ||
    k == 0x1680 || (0x2000 <= k <= 0x200A) || k == 0x2028 || k == 0x2029 ||
    k == 0x202F || k == 0x205F || k == 0x3000
  }

  predicate IsDigit(c: char) {
    '0' <= c <= '9'
  }

  predicate AllDigits(s: string) {
    forall i :: 0 <= i < |s| ==> IsDigit(s[i])
  }

  predicate NoSpace(s: string) {
    forall i :: 0 <= i < |s| ==> !IsSpace(s[i])
  }

  // ---------------------------------------------------------------------------
  // Searching
  // ---------------------------------------------------------------------------

  /** `p in s` for two strings: `p` occurs as a contiguous piece of `s`. */
  predicate Contains(s: string, p: string)
    decreases |s|
  {
    p <= s || (|s| > 0 && Contains(s[1..], p))
  }

  lemma {:induction false} ContainsAt(s: string, p: string, i: nat)
    requires i + |p| <= |s| && s[i..i + |p|] == p
    ensures Contains(s, p)
    decreases i
  {
    if i == 0 {
      assert p <= s;
    } else {
      assert s[1..][i - 1..i - 1 + |p|] == p;
      ContainsAt(s[1..], p, i - 1);
    }
  }

  /** Index of the first occurrence of `c` in `s`. */
  function IndexOf(s: string, c: char): (i: nat)
    requires c in s
    ensures i < |s| && s[i] == c && c !in s[..i]
  {
    if s[0] == c then 0 else IndexOf(s[1..], c) + 1
  }

  /** `s.endswith(c)` for a one-character suffix. */
  predicate EndsWith(s: string, c: char) {
    |s| > 0 && s[|s| - 1] == c
  }

  // ---------------------------------------------------------------------------
  // split / join
  // ---------------------------------------------------------------------------

  /** `s.split(sep)` for a one-character separator: the pieces between
      separators, empty pieces included. */
  function Split(s: string, sep: char): (parts: seq<string>)
    ensures |parts| >= 1
    ensures forall i :: 0 <= i < |parts| ==> sep !in parts[i]
    decreases |s|
  {
    if |s| == 0 then [""]
    else
      var rest := Split(s[1..], sep);
      if s[0] == sep then [""] + rest
      else [[s[0]] + rest[0]] + rest[1..]
  }

  /** `sep.join(parts)`. */
  function Join(parts: seq<string>, sep: char): string
    requires |parts| >= 1
  {
    if |parts| == 1 then parts[0] else parts[0] + [sep] + Join(parts[1..], sep)
  }

  /** `sep.join(parts)` for any list, the empty list giving the empty text. */
  function JoinAll(parts: seq<string>, sep: char): string {
    if |parts| == 0 then "" else Join(parts, sep)
  }

  /** Joining the pieces of a split gives back the original text. */
  lemma {:induction false} JoinSplit(s: string, sep: char)
    ensures Join(Split(s, sep), sep) == s
    decreases |s|
  {
    if |s| > 0 {
      var rest := Split(s[1..], sep);
      JoinSplit(s[1..], sep);
      if s[0] != sep {
        if |rest| == 1 {
        } else {
          assert rest == [rest[0]] + rest[1..];
          assert [[s[0]] + rest[0]] + rest[1..] == [[s[0]] + rest[0]] + rest[1..];
          assert Join(rest, sep) == rest[0] + [sep] + Join(rest[1..], sep);
        }
      }
    }
  }

  /** Splitting a join of separator-free pieces gives back the pieces. */
  lemma {:induction false} SplitJoin(parts: seq<string>, sep: char)
    requires |parts| >= 1
    requires forall i :: 0 <= i < |parts| ==> sep !in parts[i]
    ensures Split(Join(parts, sep), sep) == parts
    decreases |parts|, |parts[0]|
  {
    var p := parts[0];
    if |p| == 0 {
      if |parts| > 1 {
        SplitJoin(parts[1..], sep);
        assert Join(parts, sep) == [sep] + Join(parts[1..], sep);
        assert Join(parts, sep)[1..] == Join(parts[1..], sep);
      }
    } else {
      var tail := [p[1..]] + parts[1..];
      forall i | 0 <= i < |tail|
        ensures sep !in tail[i]
      {
        if i == 0 {
          assert forall c :: c in p[1..] ==> c in p;
        } else {
          assert tail[i] == parts[i];
        }
      }
      SplitJoin(tail, sep);
      assert p[0] != sep by { assert p[0] in p; }
      JoinPeel(parts, sep);
      SplitPeel(p[0], Join(tail, sep), sep);
      assert [p[0]] + tail[0] == p;
      assert tail[1..] == parts[1..];
    }
  }

  /** Taking the first character off the first part of a join. */
  lemma JoinPeel(parts: seq<string>, sep: char)
    requires |parts| >= 1 && |parts[0]| > 0
    ensures Join(parts, sep) == [parts[0][0]] + Join([parts[0][1..]] + parts[1..], sep)
  {
    var p := parts[0];
    var tail := [p[1..]] + parts[1..];
    assert p == [p[0]] + p[1..];
    if |parts| > 1 {
      assert tail[1..] == parts[1..];
    }
  }

  /** Splitting a text that starts with a character other than the separator. */
  lemma SplitPeel(c: char, s: string, sep: char)
    requires c != sep
    ensures Split([c] + s, sep) == [[c] + Split(s, sep)[0]] + Split(s, sep)[1..]
  {
    assert ([c] + s)[1..] == s;
  }

  /** `s.split(sep, maxsplit)`: splits at the first `maxsplit` separators only,
      the rest is kept whole as the last piece. */
  function SplitAtMost(s: string, sep: char, maxsplit: nat): (parts: seq<string>)
    ensures 1 <= |parts| <= maxsplit + 1
    decreases maxsplit
  {
    if maxsplit == 0 || sep !in s then [s]
    else
      var i := IndexOf(s, sep);
      [s[..i]] + SplitAtMost(s[i + 1..], sep, maxsplit - 1)
  }

  /** Splitting at most `maxsplit` times loses nothing: the pieces joined by the
      separator are the original text. */
  lemma {:induction false} JoinSplitAtMost(s: string, sep: char, maxsplit: nat)
    ensures Join(SplitAtMost(s, sep, maxsplit), sep) == s
    decreases maxsplit
  {
    if maxsplit > 0 && sep in s {
      var at := IndexOf(s, sep);
      var head, tail := s[..at], s[at + 1..];
      var rest := SplitAtMost(tail, sep, maxsplit - 1);
      assert SplitAtMost(s, sep, maxsplit) == [head] + rest;
      JoinCons(head, rest, sep);
      JoinSplitAtMost(tail, sep, maxsplit - 1);
      AroundIndex(s, at);
    }
  }

  /** A text is the part before a position, the character there and the part
      after it. */
  lemma AroundIndex(s: string, at: nat)
    requires at < |s|
    ensures s == s[..at] + [s[at]] + s[at + 1..]
  {
  }

  /** Splitting at the first two separators into three pieces: the text is
      the pieces joined by the separator, and the first two hold none. */
  lemma SplitInThree(s: string, sep: char)
    requires |SplitAtMost(s, sep, 2)| == 3
    ensures var parts := SplitAtMost(s, sep, 2);
      s == parts[0] + [sep] + parts[1] + [sep] + parts[2] && sep !in parts[0] && sep !in parts[1]
  {
    var parts := SplitAtMost(s, sep, 2);
    SplitAtMostPiecesFree(s, sep, 2);
    assert sep !in parts[0] && sep !in parts[1];
    JoinSplitAtMost(s, sep, 2);
    JoinOfThree(parts, sep);
  }

  /** Three pieces joined: the first, the separator, the second, the
      separator, the third. */
  lemma JoinOfThree(parts: seq<string>, sep: char)
    requires |parts| == 3
    ensures Join(parts, sep) == parts[0] + [sep] + parts[1] + [sep] + parts[2]
  {
    assert parts[1..] == [parts[1]] + [parts[2]];
    JoinCons(parts[0], parts[1..], sep);
    JoinCons(parts[1], [parts[2]], sep);
    assert parts == [parts[0]] + parts[1..];
  }

  /** Every piece but the last holds no separator. */
  lemma {:induction false} SplitAtMostPiecesFree(s: string, sep: char, maxsplit: nat)
    ensures forall k :: 0 <= k < |SplitAtMost(s, sep, maxsplit)| - 1 ==> sep !in SplitAtMost(s, sep, maxsplit)[k]
    decreases maxsplit
  {
    if maxsplit > 0 && sep in s {
      var at := IndexOf(s, sep);
      var rest := SplitAtMost(s[at + 1..], sep, maxsplit - 1);
      SplitAtMostPiecesFree(s[at + 1..], sep, maxsplit - 1);
      var parts := [s[..at]] + rest;
      assert SplitAtMost(s, sep, maxsplit) == parts;
      forall k | 0 <= k < |parts| - 1
        ensures sep !in parts[k]
      {
        if k > 0 {
          assert parts[k] == rest[k - 1];
        } else {
          assert parts[0] == s[..at];
        }
      }
    }
  }

  /** A text splits into more than one piece exactly when it holds the
      separator. */
  lemma SplitSeveral(s: string, sep: char)
    ensures |Split(s, sep)| >= 2 <==> sep in s
  {
    if sep in s {
      JoinSplit(s, sep);
    } else {
      SplitJoin([s], sep);
    }
  }

  lemma JoinCons(head: string, rest: seq<string>, sep: char)
    requires |rest| >= 1
    ensures Join([head] + rest, sep) == head + [sep] + Join(rest, sep)
  {
    assert ([head] + rest)[1..] == rest;
  }

  // ---------------------------------------------------------------------------
  // strip / split on whitespace
  // ---------------------------------------------------------------------------

  /** `s.lstrip()`. */
  function LStrip(s: string): (r: string)
    ensures |r| <= |s| && r == s[|s| - |r|..]
    ensures |r| == 0 || !IsSpace(r[0])
    decreases |s|
  {
    if |s| > 0 && IsSpace(s[0]) then LStrip(s[1..]) else s
  }

  /** `s.rstrip()`. */
  function RStrip(s: string): (r: string)
    ensures |r| <= |s| && r == s[..|r|]
    ensures |r| == 0 || !IsSpace(r[|r| - 1])
    decreases |s|
  {
    if |s| > 0 && IsSpace(s[|s| - 1]) then RStrip(s[..|s| - 1]) else s
  }

  /** What `lstrip` removes is whitespace. */
  lemma {:induction false} LStripRemovesSpaces(s: string)
    ensures forall i :: 0 <= i < |s| - |LStrip(s)| ==> IsSpace(s[i])
    decreases |s|
  {
    if |s| > 0 && IsSpace(s[0]) {
      LStripRemovesSpaces(s[1..]);
      forall i | 1 <= i < |s| - |LStrip(s)|
        ensures IsSpace(s[i])
      {
        assert s[i] == s[1..][i - 1];
      }
    }
  }

  /** What `rstrip` removes is whitespace. */
  lemma {:induction false} RStripRemovesSpaces(s: string)
    ensures forall i :: |RStrip(s)| <= i < |s| ==> IsSpace(s[i])
    decreases |s|
  {
    if |s| > 0 && IsSpace(s[|s| - 1]) {
      RStripRemovesSpaces(s[..|s| - 1]);
      forall i | |RStrip(s)| <= i < |s| - 1
        ensures IsSpace(s[i])
      {
        assert s[i] == s[..|s| - 1][i];
      }
    }
  }

  /** Every character is whitespace. */
  predicate Blank(s: string) {
    forall i :: 0 <= i < |s| ==> IsSpace(s[i])
  }

  /** `not s.strip()` holds exactly for blank texts. */
  lemma BlankIffStripEmpty(s: string)
    ensures Blank(s) <==> Strip(s) == ""
  {
    var t := LStrip(s);
    if Strip(s) == "" {
      RStripRemovesSpaces(t);
      LStripRemovesSpaces(s);
    }
  }

  /** `s.strip()`: leading and trailing whitespace removed. */
  function Strip(s: string): string {
    RStrip(LStrip(s))
  }

  /** A text without whitespace at its ends is left as it is by stripping. */
  lemma StripNoEdgeSpace(s: string)
    requires |s| == 0 || (!IsSpace(s[0]) && !IsSpace(s[|s| - 1]))
    ensures Strip(s) == s
  {
  }

  /** `s.rstrip(c)` for one character: trailing copies of `c` removed. */
  function RStripChar(s: string, c: char): (r: string)
    ensures |r| <= |s| && r == s[..|r|]
    ensures !EndsWith(r, c)
    ensures forall i :: |r| <= i < |s| ==> s[i] == c
    decreases |s|
  {
    if EndsWith(s, c) then RStripChar(s[..|s| - 1], c) else s
  }

  /** The longest prefix of `s` without whitespace. */
  function Word(s: string): (w: string)
    ensures w <= s && NoSpace(w)
    ensures |w| == |s| || IsSpace(s[|w|])
    ensures |s| > 0 && !IsSpace(s[0]) ==> |w| > 0
    decreases |s|
  {
    if |s| == 0 || IsSpace(s[0]) then "" else [s[0]] + Word(s[1..])
  }

  /** `s.split()` with no argument: the maximal runs of non-whitespace. */
  function SplitWhitespace(s: string): seq<string>
    decreases |s|
  {
    var t := LStrip(s);
    if |t| == 0 then []
    else
      var w := Word(t);
      if |w| == 0 then [] // unreachable: `t` starts with a non-space
      else [w] + SplitWhitespace(t[|w|..])
  }

  /** Every token is non-empty and holds no whitespace. */
  lemma {:induction false} SplitWhitespaceTokens(s: string)
    ensures forall i :: 0 <= i < |SplitWhitespace(s)| ==>
      |SplitWhitespace(s)[i]| > 0 && NoSpace(SplitWhitespace(s)[i])
    decreases |s|
  {
    var t := LStrip(s);
    if |t| > 0 {
      var w := Word(t);
      if |w| > 0 {
        var rest := SplitWhitespace(t[|w|..]);
        SplitWhitespaceTokens(t[|w|..]);
        assert SplitWhitespace(s) == [w] + rest;
        forall i | 0 <= i < |[w] + rest|
          ensures |([w] + rest)[i]| > 0 && NoSpace(([w] + rest)[i])
        {
          if i > 0 {
            assert ([w] + rest)[i] == rest[i - 1];
          }
        }
      }
    }
  }

  /** A word without whitespace followed by a space and more text splits into
      that word and the tokens of the rest. */
  lemma WordThenSpace(w: string, rest: string)
    requires |w| > 0 && NoSpace(w)
    ensures SplitWhitespace(w + " " + rest) == [w] + SplitWhitespace(rest)
  {
    var s := w + " " + rest;
    var sp := " " + rest;
    assert s == w + sp;
    assert !IsSpace(s[0]);
    assert LStrip(s) == s;
    WordPrefix(w, sp);
    assert s[|w|..] == sp;
    assert SplitWhitespace(s) == [w] + SplitWhitespace(sp);
    assert sp[1..] == rest;
    assert LStrip(sp) == LStrip(rest);
  }

  lemma {:induction false} WordPrefix(w: string, rest: string)
    requires NoSpace(w)
    requires |rest| == 0 || IsSpace(rest[0])
    ensures Word(w + rest) == w
    decreases |w|
  {
    if |w| > 0 {
      assert (w + rest)[1..] == w[1..] + rest;
      WordPrefix(w[1..], rest);
    } else {
      assert w + rest == rest;
    }
  }

  /** A single word without whitespace is its own only token. */
  lemma SingleWord(w: string)
    requires |w| > 0 && NoSpace(w)
    ensures SplitWhitespace(w) == [w]
  {
    WordPrefix(w, "");
    assert w + "" == w;
  }

  // ---------------------------------------------------------------------------
  // lower / replace
  // ---------------------------------------------------------------------------

  function LowerChar(c: char): char {
    if 'A' <= c <= 'Z' then (c as int + 32) as char else c
  }

  /** `s.lower()` on ASCII letters. */
  function Lower(s: string): (r: string)
    ensures |r| == |s|
    ensures forall i :: 0 <= i < |s| ==> r[i] == LowerChar(s[i])
  {
    seq(|s|, i requires 0 <= i < |s| => LowerChar(s[i]))
  }

  /** `s.replace(p, r)` for a non-empty pattern: occurrences found left to
      right, without overlap, each replaced by `r`. */
  function Replace(s: string, p: string, r: string): string
    requires |p| > 0
    decreases |s|
  {
    if |s| == 0 then ""
    else if p <= s then r + Replace(s[|p|..], p, r)
    else [s[0]] + Replace(s[1..], p, r)
  }

  /** Removing a pattern never makes a text longer, and leaves a text that does
      not contain the pattern unchanged. */
  lemma {:induction false} RemoveShrinks(s: string, p: string)
    requires |p| > 0
    ensures |Replace(s, p, "")| <= |s|
    ensures !Contains(s, p) ==> Replace(s, p, "") == s
    decreases |s|
  {
    if |s| > 0 {
      if p <= s {
        RemoveShrinks(s[|p|..], p);
      } else {
        RemoveShrinks(s[1..], p);
        assert [s[0]] + s[1..] == s;
      }
    }
  }

  /** Removing a pattern the text contains makes it strictly shorter. */
  lemma {:induction false} RemoveFoundShrinks(s: string, p: string)
    requires |p| > 0 && Contains(s, p)
    ensures |Replace(s, p, "")| < |s|
    decreases |s|
  {
    if p <= s {
      RemoveShrinks(s[|p|..], p);
    } else {
      RemoveFoundShrinks(s[1..], p);
    }
  }

  /** A prefix without the pattern's first character passes through removal
      untouched. */
  lemma {:induction false} RemoveSkipsPlain(x: string, y: string, p: string)
    requires |p| > 0 && p[0] !in x
    ensures Replace(x + y, p, "") == x + Replace(y, p, "")
    decreases |x|
  {
    if x == [] {
      assert x + y == y;
    } else {
      assert (x + y)[0] == x[0] != p[0];
      assert (x + y)[1..] == x[1..] + y;
      RemoveSkipsPlain(x[1..], y, p);
      assert [x[0]] + x[1..] == x;
    }
  }

  /** An occurrence of the pattern at the front is dropped. */
  lemma RemoveLeading(p: string, y: string)
    requires |p| > 0
    ensures Replace(p + y, p, "") == Replace(y, p, "")
  {
    assert p <= p + y;
    assert (p + y)[|p|..] == y;
  }

  // ---------------------------------------------------------------------------
  // Integers and their decimal text
  // ---------------------------------------------------------------------------

  function DigitChar(d: nat): char
    requires d < 10
  {
    ('0' as int + d) as char
  }

  function DigitValue(c: char): nat
    requires IsDigit(c)
  {
    c as int - '0' as int
  }

  /** `str(n)` for a natural number: its decimal digits, no leading zero. */
  function NatToString(n: nat): (s: string)
    ensures |s| >= 1 && AllDigits(s)
    ensures s[0] != '0' || n == 0
  {
    if n < 10 then [DigitChar(n)] else NatToString(n / 10) + [DigitChar(n % 10)]
  }

  /** `str(i)` for any integer. */
  function IntToString(i: int): (s: string)
    ensures |s| >= 1
  {
    if i < 0 then "-" + NatToString(-i) else NatToString(i)
  }

  /** The value of a run of digits in which single underscores may separate
      digits (Python's integer literal rule); underscores carry no value. */
  function DigitsValue(s: string): nat
    requires forall i :: 0 <= i < |s| ==> IsDigit(s[i]) || s[i] == '_'
    decreases |s|
  {
    if |s| == 0 then 0
    else
      var last := s[|s| - 1];
      if last == '_' then DigitsValue(s[..|s| - 1])
      else DigitsValue(s[..|s| - 1]) * 10 + DigitValue(last)
  }

  /** What `int()` accepts after the sign: digits, possibly grouped by single
      underscores, starting and ending with a digit. */
  predicate WellFormedDigits(s: string) {
    && |s| > 0
    && IsDigit(s[0]) && IsDigit(s[|s| - 1])
    && (forall i :: 0 <= i < |s| ==> IsDigit(s[i]) || s[i] == '_')
    && (forall i :: 0 <= i < |s| - 1 && s[i] == '_' ==> s[i + 1] != '_')
  }

  /** Python's `int(s)`: surrounding whitespace ignored, an optional sign, then
      well-formed decimal digits; `None` where Python raises `ValueError`. */
  function ParseInt(s: string): (r: Option<int>)
  {
    ParseSigned(Strip(s))
  }

  /** `int()` of a text with nothing left to strip. */
  function ParseSigned(t: string): (r: Option<int>)
  {
    if |t| > 0 && (t[0] == '-' || t[0] == '+') then
      var body := t[1..];
      if WellFormedDigits(body) then
        Some(if t[0] == '-' then -(DigitsValue(body) as int) else DigitsValue(body) as int)
      else None
    else if WellFormedDigits(t) then Some(DigitsValue(t) as int)
    else None
  }

  lemma {:induction false} DigitsValueOfNat(n: nat)
    ensures DigitsValue(NatToString(n)) == n
  {
    var s := NatToString(n);
    if n >= 10 {
      DigitsValueOfNat(n / 10);
      assert s[..|s| - 1] == NatToString(n / 10);
    }
  }

  /** The decimal text of a natural number is what `int()` accepts after the
      sign. */
  lemma NatTextWellFormed(n: nat)
    ensures WellFormedDigits(NatToString(n))
  {
    var d := NatToString(n);
    assert IsDigit(d[0]) && IsDigit(d[|d| - 1]);
  }

  /** The sign and digits of an integer's decimal text read back as the
      integer. */
  lemma ParseSignedToString(i: int)
    ensures ParseSigned(IntToString(i)) == Some(i)
  {
    var t := IntToString(i);
    if i < 0 {
      var d := NatToString(-i);
      assert t[1..] == d;
      NatTextWellFormed(-i);
      DigitsValueOfNat(-i);
    } else {
      NatTextWellFormed(i);
      DigitsValueOfNat(i);
    }
  }

  /** An integer's decimal text has no whitespace at its ends. */
  lemma IntTextStrip(i: int)
    ensures Strip(IntToString(i)) == IntToString(i)
  {
    var t := IntToString(i);
    var d := NatToString(if i < 0 then -i else i);
    assert t[|t| - 1] == d[|d| - 1];
    assert IsDigit(d[|d| - 1]);
    StripNoEdgeSpace(t);
  }

  /** Reading back the decimal text of an integer gives the integer. */
  lemma ParseIntToString(i: int)
    ensures ParseInt(IntToString(i)) == Some(i)
  {
    IntTextStrip(i);
    ParseSignedToString(i);
  }

  /** Decimal text determines the number: distinct naturals print differently. */
  lemma NatToStringInjective(m: nat, n: nat)
    requires NatToString(m) == NatToString(n)
    ensures m == n
  {
    DigitsValueOfNat(m);
    DigitsValueOfNat(n);
  }

  /** The text after the last occurrence of `c` (all of `s` if there is none). */
  function AfterLast(s: string, c: char): (r: string)
    ensures c !in r
    decreases |s|
  {
    if |s| == 0 then ""
    else if s[|s| - 1] == c then ""
    else AfterLast(s[..|s| - 1], c) + [s[|s| - 1]]
  }

  lemma {:induction false} AfterLastOfSuffix(p: string, c: char, d: string)
    requires c !in d
    ensures AfterLast(p + [c] + d, c) == d
    decreases |d|
  {
    var s := p + [c] + d;
    if |d| == 0 {
      assert s[|s| - 1] == c;
    } else {
      var d' := d[..|d| - 1];
      assert s[..|s| - 1] == p + [c] + d';
      assert c !in d' by { assert forall x :: x in d' ==> x in d; }
      AfterLastOfSuffix(p, c, d');
      assert d' + [d[|d| - 1]] == d;
    }
  }
}
