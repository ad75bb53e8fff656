/** Character classes and the few Python string operations the crawler and the shells
    rely on: `strip`, `split(sep)`, `split()`, `sep.join`, `int()` and `"%d"`. */
module Text {
  import opened Wrappers

  /** `\s` in a pattern without the UNICODE flag, and the whitespace of `str.strip()`
      and `str.split()` on byte strings. */
  predicate IsSpace(c: char) {
    c == ' ' || c == '\t' || c == '\n' || c == '\r' || c == '\U{0B}' || c == '\U{0C}'
  }

  /** Whitespace of `unicode.strip()` and `unicode.split()` in Python 2.7: the ASCII
      whitespace, the information separators U+001C to U+001F, and the Unicode space
      characters of Unicode 5.2 (no-break space, the Mongolian vowel separator, en/em
      spaces, line and paragraph separators, ...). */
  predicate IsUnicodeSpace(c: char) {
    || IsSpace(c)
    || ('\U{1C}' <= c <= '\U{1F}')
    || c == '\U{85}' || c == '\U{A0}' || c == '\U{1680}' || c == '\U{180E}'
    || ('\U{2000}' <= c <= '\U{200A}')
    || c == '\U{2028}' || c == '\U{2029}' || c == '\U{202F}' || c == '\U{205F}' || c == '\U{3000}'
  }

  /** The two whitespace classes Python 2 uses: that of byte strings and of `re` without the
      UNICODE flag, and that of `unicode.strip()` / `unicode.split()`. */
  datatype Spaces = Ascii | Unicode

  predicate IsWs(ws: Spaces, c: char) {
    if ws == Ascii then IsSpace(c) else IsUnicodeSpace(c)
  }

  /** `\w` without the UNICODE flag: ASCII letters, digits and the underscore. */
  predicate IsWordChar(c: char) {
    ('a' <= c <= 'z') || ('A' <= c <= 'Z') || ('0' <= c <= '9') || c == '_'
  }

  /** ASCII lower case, the only folding `re.I` does without the UNICODE flag. */
  function Lower(c: char): char {
    if 'A' <= c <= 'Z' then (c as int + 32) as char else c
  }

  predicate IsDigit(c: char) {
    '0' <= c <= '9'
  }

  /** Some character of `s` is not whitespace of class `ws` (`re.search("\S", s)`). */
  predicate HasNonSpace(s: string, ws: Spaces) {
    exists k :: 0 <= k < |s| && !IsWs(ws, s[k])
  }

  /** Drops the leading whitespace. */
  function TrimLeft(s: string, ws: Spaces): (r: string)
    ensures |r| <= |s| && r == s[|s| - |r|..]
    ensures forall k :: 0 <= k < |s| - |r| ==> IsWs(ws, s[k])
    ensures r != [] ==> !IsWs(ws, r[0])
  {
    if s != [] && IsWs(ws, s[0]) then TrimLeft(s[1..], ws) else s
  }

  /** Drops the trailing whitespace. */
  function TrimRight(s: string, ws: Spaces): (r: string)
    ensures |r| <= |s| && r == s[..|r|]
    ensures forall k :: |r| <= k < |s| ==> IsWs(ws, s[k])
    ensures r != [] ==> !IsWs(ws, r[|r| - 1])
  {
    if s != [] && IsWs(ws, s[|s| - 1]) then TrimRight(s[..|s| - 1], ws) else s
  }

  /** `s.strip()` for the whitespace class `ws`. */
  function Strip(s: string, ws: Spaces): (r: string)
    ensures |r| > 0 ==> !IsWs(ws, r[0]) && !IsWs(ws, r[|r| - 1])
    ensures r == [] <==> !HasNonSpace(s, ws)
    ensures (s == [] || (!IsWs(ws, s[0]) && !IsWs(ws, s[|s| - 1]))) ==> r == s
  {
    var left := TrimLeft(s, ws);
    var r := TrimRight(left, ws);
    StripFacts(s, ws, left, r);
    r
  }

  lemma StripFacts(s: string, ws: Spaces, left: string, r: string)
    requires left == TrimLeft(s, ws) && r == TrimRight(left, ws)
    ensures |r| > 0 ==> !IsWs(ws, r[0]) && !IsWs(ws, r[|r| - 1])
    ensures r == [] <==> !HasNonSpace(s, ws)
    ensures (s == [] || (!IsWs(ws, s[0]) && !IsWs(ws, s[|s| - 1]))) ==> r == s
  {
    StripEnds(left, ws, r);
    StripBlank(s, ws, left, r);
    if s != [] && !IsWs(ws, s[0]) && !IsWs(ws, s[|s| - 1]) {
      assert left == s;
      assert r == s;
    }
  }

  lemma StripEnds(left: string, ws: Spaces, r: string)
    requires left == [] || !IsWs(ws, left[0])
    requires r == TrimRight(left, ws)
    ensures |r| > 0 ==> !IsWs(ws, r[0]) && !IsWs(ws, r[|r| - 1])
  {
    if r != [] {
      assert r[0] == left[0];
    }
  }

  lemma StripBlank(s: string, ws: Spaces, left: string, r: string)
    requires left == TrimLeft(s, ws) && r == TrimRight(left, ws)
    ensures r == [] <==> !HasNonSpace(s, ws)
  {
    var cut := |s| - |left|;
    if r != [] {
      assert r[0] == left[0] == s[cut];
      assert HasNonSpace(s, ws);
    } else {
      forall k | 0 <= k < |s| ensures IsWs(ws, s[k]) {
        if k >= cut {
          assert s[k] == left[k - cut];
        }
      }
    }
  }

  /** `s.split(sep)`: the pieces between occurrences of `sep`; never empty. */
  function Split(s: string, sep: char): (pieces: seq<string>)
    ensures |pieces| >= 1
    ensures forall k :: 0 <= k < |pieces| ==> sep !in pieces[k]
  {
    if s == [] then [""]
    else
      var rest := Split(s[1..], sep);
      if s[0] == sep then [""] + rest else [[s[0]] + rest[0]] + rest[1..]
  }

  /** `sep.join(pieces)`. */
  function Join(pieces: seq<string>, sep: string): (r: string)
    ensures |pieces| == 1 ==> r == pieces[0]
  {
    if |pieces| == 0 then ""
    else if |pieces| == 1 then pieces[0]
    else pieces[0] + sep + Join(pieces[1..], sep)
  }

  /** Joining the pieces of a split with the separator gives back the original string. */
  lemma {:induction false} JoinSplit(s: string, sep: char)
    ensures Join(Split(s, sep), [sep]) == s
  {
    if s != [] {
      var rest := Split(s[1..], sep);
      JoinSplit(s[1..], sep);
      if s[0] == sep {
        assert Split(s, sep) == [""] + rest;
        assert ([""] + rest)[1..] == rest;
      } else {
        var pieces := [[s[0]] + rest[0]] + rest[1..];
        assert Split(s, sep) == pieces;
        if |rest| == 1 {
          assert rest == [rest[0]];
        } else {
          assert pieces[1..] == rest[1..];
          assert Join(rest, [sep]) == rest[0] + [sep] + Join(rest[1..], [sep]);
        }
      }
    }
  }

  /** A character in none of the pieces and other than the separator is not in their join. */
  lemma {:induction false} JoinAvoids(ps: seq<string>, sep: char, c: char)
    requires c != sep && forall k :: 0 <= k < |ps| ==> c !in ps[k]
    ensures c !in Join(ps, [sep])
  {
    if |ps| > 1 {
      JoinAvoids(ps[1..], sep, c);
    }
  }

  /** A join starts with the first piece's first character and ends with the last piece's
      last character. */
  lemma {:induction false} JoinEnds(ps: seq<string>, sep: char)
    requires |ps| >= 1 && ps[0] != [] && ps[|ps| - 1] != []
    ensures var j := Join(ps, [sep]);
      j != [] && j[0] == ps[0][0] && j[|j| - 1] == ps[|ps| - 1][|ps[|ps| - 1]| - 1]
  {
    if |ps| > 1 {
      JoinLast(ps[1..], sep);
      assert Join(ps, [sep]) == ps[0] + ([sep] + Join(ps[1..], [sep]));
    }
  }

  lemma {:induction false} JoinLast(ps: seq<string>, sep: char)
    requires |ps| >= 1 && ps[|ps| - 1] != []
    ensures var j := Join(ps, [sep]);
      j != [] && j[|j| - 1] == ps[|ps| - 1][|ps[|ps| - 1]| - 1]
  {
    if |ps| > 1 {
      JoinLast(ps[1..], sep);
      assert Join(ps, [sep]) == (ps[0] + [sep]) + Join(ps[1..], [sep]);
    }
  }

  /** Two fields that each end at a separator are equal when their concatenations are. */
  lemma FieldsBeforeSeparator(a: string, x: string, b: string, y: string, sep: char)
    requires a + x == b + y
    requires sep !in a && sep !in b && x != [] && y != [] && x[0] == sep && y[0] == sep
    ensures a == b
  {
    var m := if |a| < |b| then |a| else |b|;
    assert (a + x)[m] == (b + y)[m];
    assert |a| == |b|;
    assert a == (a + x)[..|a|];
    assert b == (b + y)[..|b|];
  }

  /** Pieces free of the separator are told apart by their join: the first piece ends at
      the first separator. */
  lemma {:induction false} JoinInjective(ps: seq<string>, qs: seq<string>, sep: char)
    requires |ps| >= 1 && |qs| >= 1
    requires forall k :: 0 <= k < |ps| ==> sep !in ps[k]
    requires forall k :: 0 <= k < |qs| ==> sep !in qs[k]
    requires Join(ps, [sep]) == Join(qs, [sep])
    ensures ps == qs
  {
    var x := JoinCons(ps, sep);
    var y := JoinCons(qs, sep);
    HeadsAgree(ps[0], x, qs[0], y, sep);
    if |ps| > 1 && |qs| > 1 {
      assert Join(ps[1..], [sep]) == x[1..] == y[1..] == Join(qs[1..], [sep]);
      JoinInjective(ps[1..], qs[1..], sep);
      assert ps == [ps[0]] + ps[1..] && qs == [qs[0]] + qs[1..];
    }
  }

  /** A join is its first piece, then what follows it: nothing, or the separator and the
      join of the rest. */
  lemma JoinCons(ps: seq<string>, sep: char) returns (x: string)
    requires |ps| >= 1
    ensures Join(ps, [sep]) == ps[0] + x
    ensures |ps| == 1 ==> x == [] && ps == [ps[0]]
    ensures |ps| > 1 ==> x == [sep] + Join(ps[1..], [sep])
  {
    x := if |ps| == 1 then "" else [sep] + Join(ps[1..], [sep]);
  }

  /** Two strings that each continue with the separator or end are told apart by their
      first field. */
  lemma HeadsAgree(a: string, x: string, b: string, y: string, sep: char)
    requires a + x == b + y && sep !in a && sep !in b
    requires (x == [] || x[0] == sep) && (y == [] || y[0] == sep)
    ensures a == b && x == y
  {
    assert a + (x + [sep]) == (a + x) + [sep] == (b + y) + [sep] == b + (y + [sep]);
    FieldsBeforeSeparator(a, x + [sep], b, y + [sep], sep);
    assert x == (a + x)[|a|..] && y == (b + y)[|b|..];
  }

  /** Splitting a join of separator-free pieces gives the pieces back. */
  lemma SplitJoin(ps: seq<string>, sep: char)
    requires |ps| >= 1 && forall k :: 0 <= k < |ps| ==> sep !in ps[k]
    ensures Split(Join(ps, [sep]), sep) == ps
  {
    JoinSplit(Join(ps, [sep]), sep);
    JoinInjective(Split(Join(ps, [sep]), sep), ps, sep);
  }

  /** `s.split()`: the maximal runs of non-whitespace characters, in order. */
  function Words(s: string, ws: Spaces): (w: seq<string>)
    ensures forall k :: 0 <= k < |w| ==> w[k] != [] && forall j :: 0 <= j < |w[k]| ==> !IsWs(ws, w[k][j])
    ensures s != [] && !IsWs(ws, s[0]) ==> |w| > 0 && w[0][0] == s[0]
  {
    if s == [] then []
    else if IsWs(ws, s[0]) then Words(s[1..], ws)
    else
      var rest := Words(s[1..], ws);
      if |s| > 1 && !IsWs(ws, s[1]) then [[s[0]] + rest[0]] + rest[1..] else [[s[0]]] + rest
  }

  /** A string without whitespace is its own single word. */
  lemma {:induction false} WordsOfWord(s: string, ws: Spaces)
    requires s != [] && forall j :: 0 <= j < |s| ==> !IsWs(ws, s[j])
    ensures Words(s, ws) == [s]
  {
    if |s| > 1 {
      WordsOfWord(s[1..], ws);
      assert Words(s[1..], ws) == [s[1..]];
      assert [s[0]] + s[1..] == s;
    } else {
      assert s == [s[0]];
    }
  }

  /** Two words with one space between them split back into those two words. */
  lemma {:induction false} WordsOfPair(a: string, b: string, ws: Spaces)
    requires a != [] && forall j :: 0 <= j < |a| ==> !IsWs(ws, a[j])
    requires b != [] && forall j :: 0 <= j < |b| ==> !IsWs(ws, b[j])
    ensures Words(a + " " + b, ws) == [a, b]
  {
    var s := a + " " + b;
    assert s[1..] == a[1..] + " " + b;
    assert IsWs(ws, ' ');
    if |a| == 1 {
      assert s[1..][1..] == b;
      WordsOfWord(b, ws);
      assert Words(s[1..], ws) == [b];
      assert a == [s[0]];
    } else {
      WordsOfPair(a[1..], b, ws);
      assert [a[0]] + a[1..] == a;
    }
  }

  // ----- decimal integers ---------------------------------------------------------

  function DigitValue(c: char): (d: nat)
    requires IsDigit(c)
    ensures d < 10
  {
    c as int - '0' as int
  }

  function DigitChar(d: nat): (c: char)
    requires d < 10
    ensures IsDigit(c) && DigitValue(c) == d
  {
    ('0' as int + d) as char
  }

  predicate AllDigits(s: string) {
    forall k :: 0 <= k < |s| ==> IsDigit(s[k])
  }

  /** The value of a string of decimal digits. */
  function DigitsValue(s: string): nat
    requires AllDigits(s)
  {
    if s == [] then 0 else DigitsValue(s[..|s| - 1]) * 10 + DigitValue(s[|s| - 1])
  }

  /** `"%d" % n` for a natural number. */
  function NatToString(n: nat): (s: string)
    ensures s != [] && AllDigits(s)
  {
    if n < 10 then [DigitChar(n)] else NatToString(n / 10) + [DigitChar(n % 10)]
  }

  /** `"%d" % i`. */
  function IntToString(i: int): (s: string)
    ensures s != [] && !IsSpace(s[0]) && !IsSpace(s[|s| - 1])
  {
    if i < 0 then "-" + NatToString(-i) else NatToString(i)
  }

  /** `int(s)` on a byte string: optional surrounding whitespace, an optional sign, more
      optional whitespace after the sign (the digit scan skips whitespace again) and at
      least one decimal digit; anything else raises (`None`). */
  function ParseInt(s: string): Option<int> {
    var t := Strip(s, Ascii);
    if t != [] && (t[0] == '-' || t[0] == '+') then
      var u := TrimLeft(t[1..], Ascii);
      if u != [] && AllDigits(u) then
        var v: int := DigitsValue(u);
        Some(if t[0] == '-' then -v else v)
      else None
    else if t != [] && AllDigits(t) then Some(DigitsValue(t))
    else None
  }

  lemma {:induction false} DigitsValueOfNat(n: nat)
    ensures DigitsValue(NatToString(n)) == n
  {
    var s := NatToString(n);
    if n >= 10 {
      DigitsValueOfNat(n / 10);
      assert s[..|s| - 1] == NatToString(n / 10);
    }
  }

  /** A sign, then digits after any whitespace. */
  lemma ParseIntSigned(s: string, u: string)
    requires s != [] && (s[0] == '-' || s[0] == '+') && Strip(s, Ascii) == s
    requires u == TrimLeft(s[1..], Ascii) && u != [] && AllDigits(u)
    ensures ParseInt(s) == Some(if s[0] == '-' then -(DigitsValue(u) as int) else DigitsValue(u))
  {
  }

  /** Parsing what `"%d"` prints gives the number back. */
  lemma ParseIntToString(i: int)
    ensures ParseInt(IntToString(i)) == Some(i)
  {
    if i < 0 {
      var n: nat := -i;
      var d := NatToString(n);
      assert IntToString(i) == "-" + d;
      DigitsValueOfNat(n);
      ParseIntNegative(d);
    } else {
      var d := NatToString(i);
      DigitsValueOfNat(i);
      ParseIntDigits(d);
      assert IntToString(i) == d;
    }
  }

  /** Digits alone. */
  lemma ParseIntDigits(d: string)
    requires d != [] && AllDigits(d)
    ensures ParseInt(d) == Some(DigitsValue(d))
  {
    assert IsDigit(d[0]) && IsDigit(d[|d| - 1]);
    assert !IsWs(Ascii, d[0]) && !IsWs(Ascii, d[|d| - 1]);
    assert Strip(d, Ascii) == d;
  }

  /** Digits after a minus sign. */
  lemma ParseIntNegative(d: string)
    requires d != [] && AllDigits(d)
    ensures ParseInt("-" + d) == Some(-(DigitsValue(d) as int))
  {
    ParseIntSpacedSign('-', "", d);
    assert ['-'] + "" + d == "-" + d;
  }

  /** Whitespace between the sign and the digits is skipped: `int("- 5") == -5`. */
  lemma ParseIntSpacedSign(sign: char, spaces: string, digits: string)
    requires sign == '-' || sign == '+'
    requires forall k :: 0 <= k < |spaces| ==> IsSpace(spaces[k])
    requires digits != [] && AllDigits(digits)
    ensures ParseInt([sign] + spaces + digits)
      == Some(if sign == '-' then -(DigitsValue(digits) as int) else DigitsValue(digits))
  {
    var s := [sign] + spaces + digits;
    assert s[|s| - 1] == digits[|digits| - 1] && IsDigit(digits[|digits| - 1]);
    assert !IsWs(Ascii, s[0]) && !IsWs(Ascii, s[|s| - 1]);
    assert Strip(s, Ascii) == s;
    assert s[1..] == spaces + digits;
    TrimSpaces(spaces, digits);
    ParseIntSigned(s, digits);
  }

  lemma {:induction false} TrimSpaces(spaces: string, rest: string)
    requires forall k :: 0 <= k < |spaces| ==> IsSpace(spaces[k])
    requires rest != [] && !IsSpace(rest[0])
    ensures TrimLeft(spaces + rest, Ascii) == rest
  {
    if spaces != [] {
      assert (spaces + rest)[1..] == spaces[1..] + rest;
      TrimSpaces(spaces[1..], rest);
    } else {
      assert spaces + rest == rest;
    }
  }
}
