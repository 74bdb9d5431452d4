/**
 * The two string built-ins the checkout handler applies to the cart:
 * `String.prototype.split` with a one-character separator, and
 * `parseInt(token, 10)`.
 */
module JsStrings {

  // ---------------------------------------------------------------------
  // split
  // ---------------------------------------------------------------------

  /** `s.split(sep)` for a one-character separator: the pieces between
      separators, in order. The empty string gives one empty piece, and two
      adjacent separators give an empty piece between them. */
  function Split(s: string, sep: char): (pieces: seq<string>)
    ensures |pieces| >= 1
    ensures forall i :: 0 <= i < |pieces| ==> sep !in pieces[i]
  {
    if s == [] then [""]
    else
      var rest := Split(s[1..], sep);
      if s[0] == sep then [""] + rest
      else [[s[0]] + rest[0]] + rest[1..]
  }

  /** `pieces.join(sep)`: the inverse of Split. */
  function Join(pieces: seq<string>, sep: char): string
    requires |pieces| >= 1
  {
    if |pieces| == 1 then pieces[0] else pieces[0] + [sep] + Join(pieces[1..], sep)
  }

  /** There is one piece more than there are separators. */
  lemma {:induction false} SplitCount(s: string, sep: char)
    ensures |Split(s, sep)| == multiset(s)[sep] + 1
  {
    if s != [] {
      SplitCount(s[1..], sep);
      assert s == [s[0]] + s[1..];
      assert multiset(s) == multiset{s[0]} + multiset(s[1..]);
    }
  }

  /** Joining the pieces with the separator gives back the string. */
  lemma {:induction false} JoinSplit(s: string, sep: char)
    ensures Join(Split(s, sep), sep) == s
  {
    if s != [] {
      var rest := Split(s[1..], sep);
      JoinSplit(s[1..], sep);
      if s[0] == sep {
        assert ([""] + rest)[1..] == rest;
      } else if |rest| == 1 {
        assert Split(s, sep) == [[s[0]] + rest[0]];
      } else {
        var pieces := Split(s, sep);
        assert pieces[1..] == rest[1..];
        assert Join(rest, sep) == rest[0] + [sep] + Join(rest[1..], sep);
        assert s == [s[0]] + s[1..];
      }
    }
  }

  /** A string without the separator splits into itself. */
  lemma {:induction false} SplitWithoutSeparator(t: string, sep: char)
    requires sep !in t
    ensures Split(t, sep) == [t]
  {
    if t != [] {
      SplitWithoutSeparator(t[1..], sep);
      assert t == [t[0]] + t[1..];
    }
  }

  /** Splitting stops the first piece at the first separator. */
  lemma {:induction false} SplitAtSeparator(t: string, sep: char, rest: string)
    requires sep !in t
    ensures Split(t + [sep] + rest, sep) == [t] + Split(rest, sep)
  {
    var s := t + [sep] + rest;
    if t == [] {
      assert s[1..] == rest;
    } else {
      assert s[1..] == t[1..] + [sep] + rest;
      SplitAtSeparator(t[1..], sep, rest);
      assert t == [t[0]] + t[1..];
    }
  }

  /** Splitting a join of separator-free pieces gives back the pieces. */
  lemma {:induction false} SplitJoin(pieces: seq<string>, sep: char)
    requires |pieces| >= 1
    requires forall i :: 0 <= i < |pieces| ==> sep !in pieces[i]
    ensures Split(Join(pieces, sep), sep) == pieces
  {
    if |pieces| == 1 {
      SplitWithoutSeparator(pieces[0], sep);
    } else {
      SplitJoin(pieces[1..], sep);
      SplitAtSeparator(pieces[0], sep, Join(pieces[1..], sep));
      assert pieces == [pieces[0]] + pieces[1..];
    }
  }

  // ---------------------------------------------------------------------
  // parseInt(s, 10)
  // ---------------------------------------------------------------------

  /** A number produced by `parseInt`: an integer, or NaN when the string
      holds no digits where a number should start. */
  datatype ParsedInt = Int(value: int) | NaN

  /** Strict equality `a === b` on such numbers: NaN equals nothing, not
      even NaN. */
  predicate StrictEquals(a: ParsedInt, b: ParsedInt)
  {
    a.Int? && b.Int? && a.value == b.value
  }

  predicate IsDigit(c: char)
  {
    '0' <= c <= '9'
  }

  predicate AllDigits(d: string)
  {
    forall i :: 0 <= i < |d| ==> IsDigit(d[i])
  }

  /** The white space and line terminators that `parseInt` skips before
      the number (ECMAScript WhiteSpace and LineTerminator). */
  predicate IsWhitespace(c: char)
  {
    var k := c as int;
    k == 0x09 || k == 0x0A || k == 0x0B || k == 0x0C || k == 0x0D || k == 0x20
    || k == 0xA0 || k == 0x1680 || (0x2000 <= k <= 0x200A)
    || k == 0x2028 || k == 0x2029 || k == 0x202F || k == 0x205F
    || k == 0x3000 || k == 0xFEFF
  }

  /** The string without its leading white space. */
  function TrimStart(s: string): (t: string)
    ensures t == [] || !IsWhitespace(t[0])
    ensures |t| <= |s|
  {
    if s != [] && IsWhitespace(s[0]) then TrimStart(s[1..]) else s
  }

  /** TrimStart drops a run of white space from the front and nothing
      else: what remains is a suffix of the string, and every character
      before it is white space. */
  lemma {:induction false} TrimStartDropsOnlyWhitespace(s: string)
    ensures var t := TrimStart(s);
            t == s[|s| - |t|..] && forall i :: 0 <= i < |s| - |t| ==> IsWhitespace(s[i])
  {
    if s != [] && IsWhitespace(s[0]) {
      var t := TrimStart(s[1..]);
      TrimStartDropsOnlyWhitespace(s[1..]);
      assert s[1..][|s| - 1 - |t|..] == s[|s| - |t|..];
      forall i | 0 <= i < |s| - |t| ensures IsWhitespace(s[i]) {
        if i > 0 {
          assert s[i] == s[1..][i - 1];
        }
      }
    }
  }

  /** The longest prefix of decimal digits. */
  function DigitPrefix(s: string): (d: string)
    ensures AllDigits(d) && d <= s
    ensures |d| < |s| ==> !IsDigit(s[|d|])
  {
    if s != [] && IsDigit(s[0]) then [s[0]] + DigitPrefix(s[1..]) else []
  }

  /** The value of a string of decimal digits, most significant first. */
  function DigitsValue(d: string): nat
    requires AllDigits(d)
  {
    if d == [] then 0 else DigitsValue(d[..|d| - 1]) * 10 + (d[|d| - 1] as int - '0' as int)
  }

  /** `parseInt(s, 10)`: skip leading white space, take an optional sign,
      then read the longest run of decimal digits; no digits gives NaN.
      Whatever follows the digits is ignored. */
  function ParseInt(s: string): ParsedInt
  {
    var t := TrimStart(s);
    var negative := t != [] && t[0] == '-';
    var unsigned := if t != [] && (t[0] == '-' || t[0] == '+') then t[1..] else t;
    var digits := DigitPrefix(unsigned);
    if digits == [] then NaN
    else
      var magnitude: int := DigitsValue(digits);
      Int(if negative then -magnitude else magnitude)
  }

  /** The canonical decimal digits of a natural number (`String(n)`). */
  function Digits(n: nat): (d: string)
    ensures AllDigits(d) && d != []
  {
    var last := ('0' as int + n % 10) as char;
    if n < 10 then [last] else Digits(n / 10) + [last]
  }

  /** The canonical decimal rendering of an integer. */
  function Decimal(n: int): string
  {
    if n < 0 then "-" + Digits(-n) else Digits(n)
  }

  lemma {:induction false} DigitsValueOfDigits(n: nat)
    ensures DigitsValue(Digits(n)) == n
  {
    if n >= 10 {
      DigitsValueOfDigits(n / 10);
      var d := Digits(n);
      assert d[..|d| - 1] == Digits(n / 10);
    }
  }

  lemma {:induction false} DigitPrefixStopsAtNonDigit(d: string, tail: string)
    requires AllDigits(d)
    requires tail == [] || !IsDigit(tail[0])
    ensures DigitPrefix(d + tail) == d
  {
    if d != [] {
      DigitPrefixStopsAtNonDigit(d[1..], tail);
      assert (d + tail)[1..] == d[1..] + tail;
      assert d == [d[0]] + d[1..];
    }
  }

  /** After trimming and the sign, parseInt reads a run of digits
      followed by a non-digit as the run's value. */
  lemma ReadsDigitRun(u: string, d: string, tail: string)
    requires AllDigits(d) && d != [] && u == d + tail
    requires tail == [] || !IsDigit(tail[0])
    ensures DigitPrefix(u) == d
  {
    DigitPrefixStopsAtNonDigit(d, tail);
  }

  /** parseInt reads back the decimal rendering of any integer, whatever
      non-digit text follows it ("5", "-12", "7abc", "3 "). */
  lemma ParseIntReadsDecimal(n: int, tail: string)
    requires tail == [] || !IsDigit(tail[0])
    ensures ParseInt(Decimal(n) + tail) == Int(n)
  {
    if n < 0 {
      ParseIntReadsNegative(-n, tail);
    } else {
      ParseIntReadsNatural(n, tail);
    }
  }

  lemma ParseIntReadsNatural(m: nat, tail: string)
    requires tail == [] || !IsDigit(tail[0])
    ensures ParseInt(Digits(m) + tail) == Int(m)
  {
    var d := Digits(m);
    var s := d + tail;
    DigitsValueOfDigits(m);
    assert s[0] == d[0] && IsDigit(s[0]);
    assert TrimStart(s) == s;
    ReadsDigitRun(s, d, tail);
  }

  lemma ParseIntReadsNegative(m: nat, tail: string)
    requires m > 0
    requires tail == [] || !IsDigit(tail[0])
    ensures ParseInt("-" + Digits(m) + tail) == Int(-(m as int))
  {
    var d := Digits(m);
    var s := "-" + d + tail;
    DigitsValueOfDigits(m);
    assert s[0] == '-';
    assert TrimStart(s) == s;
    assert s[1..] == d + tail;
    ReadsDigitRun(s[1..], d, tail);
  }

  lemma {:induction false} TrimStartSkipsWhitespace(ws: string, s: string)
    requires forall i :: 0 <= i < |ws| ==> IsWhitespace(ws[i])
    ensures TrimStart(ws + s) == TrimStart(s)
  {
    if ws != [] {
      TrimStartSkipsWhitespace(ws[1..], s);
      var w := ws + s;
      assert w[0] == ws[0] && IsWhitespace(w[0]);
      assert w[1..] == ws[1..] + s;
      assert TrimStart(w) == TrimStart(w[1..]);
    } else {
      assert ws + s == s;
    }
  }

  /** Leading white space never changes what parseInt reads (" 5" is 5). */
  lemma ParseIntSkipsWhitespace(ws: string, s: string)
    requires forall i :: 0 <= i < |ws| ==> IsWhitespace(ws[i])
    ensures ParseInt(ws + s) == ParseInt(s)
  {
    TrimStartSkipsWhitespace(ws, s);
  }

  /** parseInt in general: after any white space and an optional sign, a
      run of digits ending at a non-digit or at the end reads as its value,
      negated after a minus ("+5" is 5, "05" is 5, " -007x" is -7). */
  lemma ParseIntGeneral(ws: string, sign: string, d: string, tail: string)
    requires forall i :: 0 <= i < |ws| ==> IsWhitespace(ws[i])
    requires sign == "" || sign == "+" || sign == "-"
    requires AllDigits(d) && d != []
    requires tail == [] || !IsDigit(tail[0])
    ensures ParseInt(ws + sign + d + tail) == Int(if sign == "-" then -(DigitsValue(d) as int) else DigitsValue(d))
  {
    assert ws + sign + d + tail == ws + (sign + d + tail);
    ParseIntSkipsWhitespace(ws, sign + d + tail);
    ParseIntSigned(sign, d, tail);
  }

  lemma ParseIntSigned(sign: string, d: string, tail: string)
    requires sign == "" || sign == "+" || sign == "-"
    requires AllDigits(d) && d != []
    requires tail == [] || !IsDigit(tail[0])
    ensures ParseInt(sign + d + tail) == Int(if sign == "-" then -(DigitsValue(d) as int) else DigitsValue(d))
  {
    if sign == "" {
      assert sign + d + tail == d + tail;
      ParseIntUnsigned(d, tail);
    } else {
      var c := sign[0];
      assert sign == [c];
      assert sign + d + tail == [c] + (d + tail);
      ParseIntWithSign(c, d, tail);
    }
  }

  lemma ParseIntUnsigned(d: string, tail: string)
    requires AllDigits(d) && d != []
    requires tail == [] || !IsDigit(tail[0])
    ensures ParseInt(d + tail) == Int(DigitsValue(d))
  {
    var s := d + tail;
    assert s[0] == d[0] && IsDigit(s[0]);
    assert TrimStart(s) == s;
    ReadsDigitRun(s, d, tail);
  }

  lemma ParseIntWithSign(c: char, d: string, tail: string)
    requires c == '+' || c == '-'
    requires AllDigits(d) && d != []
    requires tail == [] || !IsDigit(tail[0])
    ensures ParseInt([c] + (d + tail)) == Int(if c == '-' then -(DigitsValue(d) as int) else DigitsValue(d))
  {
    var s := [c] + (d + tail);
    assert s[0] == c && !IsWhitespace(c);
    assert TrimStart(s) == s;
    assert s[1..] == d + tail;
    ReadsDigitRun(s[1..], d, tail);
  }

  /** A string whose first non-blank character, after an optional sign, is
      not a digit reads as NaN ("", "abc", "-", "+-1"); otherwise it reads
      as an integer. */
  lemma ParseIntNaNWithoutDigits(s: string)
    ensures var t := TrimStart(s);
            var u := if t != [] && (t[0] == '-' || t[0] == '+') then t[1..] else t;
            ParseInt(s) == NaN <==> (u == [] || !IsDigit(u[0]))
  {
  }
}
