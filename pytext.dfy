/**
 * The few Python string built-ins the shell script relies on:
 * `str.split(sep)` with a one-character separator, `sep.join(xs)`,
 * and `str(n)` on an integer.  `ParseInt` is not in the script; it is the
 * decimal reader that inverts `str(n)` and is used to state that an exit
 * code written as text can be read back.
 */
module PyText {
  import opened Wrappers

  /** Python's `s.split(c)`: the maximal pieces of `s` between occurrences of `c`.
      Runs of separators leave empty pieces; the result is never empty. */
  function Split(s: string, c: char): (r: seq<string>)
    ensures |r| >= 1
    ensures c !in s ==> r == [s]
    decreases |s|
  {
    if |s| == 0 then [""]
    else if s[0] == c then [""] + Split(s[1..], c)
    else
      var rest := Split(s[1..], c);
      assert c !in s ==> c !in s[1..] && [s[0]] + s[1..] == s;
      [[s[0]] + rest[0]] + rest[1..]
  }

  /** Python's `c.join(xs)`: the pieces of `xs` with one `c` between neighbours. */
  function Join(xs: seq<string>, c: char): string
  {
    if |xs| == 0 then ""
    else if |xs| == 1 then xs[0]
    else xs[0] + [c] + Join(xs[1..], c)
  }

  /** No piece of a split holds the separator. */
  lemma {:induction false} SplitPiecesAvoid(s: string, c: char)
    ensures forall k :: 0 <= k < |Split(s, c)| ==> c !in Split(s, c)[k]
    decreases |s|
  {
    if |s| > 0 {
      SplitPiecesAvoid(s[1..], c);
    }
  }

  /** Splitting yields exactly one piece precisely when the separator does not occur. */
  lemma {:induction false} SplitSingleIff(s: string, c: char)
    ensures |Split(s, c)| == 1 <==> c !in s
    decreases |s|
  {
    if |s| > 0 {
      SplitSingleIff(s[1..], c);
      if s[0] != c {
        assert c in s <==> c in s[1..] by {
          assert s == [s[0]] + s[1..];
        }
      }
    }
  }

  /** A separator splits the text in two independent halves. */
  lemma {:induction false} SplitAppend(a: string, b: string, c: char)
    requires c !in a
    ensures Split(a + [c] + b, c) == [a] + Split(b, c)
  {
    if |a| == 0 {
      assert a + [c] + b == [c] + b;
      assert ([c] + b)[1..] == b;
    } else {
      var ab := a + [c] + b;
      assert ab[0] == a[0] && ab[0] != c;
      assert ab[1..] == a[1..] + [c] + b;
      SplitAppend(a[1..], b, c);
      assert [a[0]] + a[1..] == a;
    }
  }

  /** Splitting `a + c + b` on `c` when `b` holds no `c`: the pieces of `a`, then `b`. */
  lemma {:induction false} SplitAppendAll(a: string, b: string, c: char)
    requires c !in b
    ensures Split(a + [c] + b, c) == Split(a, c) + [b]
    decreases |a|
  {
    var ab := a + [c] + b;
    if |a| == 0 {
      assert ab == [c] + b;
      assert ab[1..] == b;
    } else {
      assert ab[0] == a[0];
      assert ab[1..] == a[1..] + [c] + b;
      SplitAppendAll(a[1..], b, c);
      var pieces := Split(a[1..], c);
      var rest := Split(ab[1..], c);
      assert rest == pieces + [b];
      if a[0] != c {
        assert rest[0] == pieces[0];
        assert rest[1..] == pieces[1..] + [b];
        assert Split(ab, c) == [[a[0]] + pieces[0]] + pieces[1..] + [b];
        assert Split(a, c) == [[a[0]] + pieces[0]] + pieces[1..];
      } else {
        assert Split(ab, c) == [""] + pieces + [b];
        assert Split(a, c) == [""] + pieces;
      }
    }
  }

  /** Two separator-free pieces, each followed by the separator, come off the front of a split. */
  lemma SplitTwoThen(a: string, b: string, rest: string, sep: char)
    requires sep !in a && sep !in b
    ensures Split(a + [sep] + b + [sep] + rest, sep) == [a, b] + Split(rest, sep)
  {
    var brest := b + [sep] + rest;
    Regroup(a, b, rest, sep);
    SplitAppend(b, rest, sep);
    SplitAppend(a, brest, sep);
  }

  lemma Regroup(a: string, b: string, rest: string, sep: char)
    ensures a + [sep] + b + [sep] + rest == a + [sep] + (b + [sep] + rest)
  {
  }

  /** Three pieces joined by a separator none of them contains split back into those three. */
  lemma SplitThree(a: string, b: string, c: string, sep: char)
    requires sep !in a && sep !in b && sep !in c
    ensures Split(a + [sep] + b + [sep] + c, sep) == [a, b, c]
  {
    SplitTwoThen(a, b, c, sep);
  }

  /** Joining and splitting back on the same separator recovers the pieces,
      provided there is at least one piece and none contains the separator. */
  lemma {:induction false} SplitJoin(xs: seq<string>, c: char)
    requires |xs| >= 1
    requires forall k :: 0 <= k < |xs| ==> c !in xs[k]
    ensures Split(Join(xs, c), c) == xs
    decreases |xs|
  {
    if |xs| > 1 {
      SplitJoin(xs[1..], c);
      SplitAppend(xs[0], Join(xs[1..], c), c);
      assert [xs[0]] + xs[1..] == xs;
    }
  }

  /** Splitting and joining back on the same separator recovers the text. */
  lemma {:induction false} JoinSplit(s: string, c: char)
    ensures Join(Split(s, c), c) == s
    decreases |s|
  {
    if |s| > 0 {
      JoinSplit(s[1..], c);
      var rest := Split(s[1..], c);
      if s[0] != c {
        if |rest| == 1 {
          assert [s[0]] + s[1..] == s;
        } else {
          assert Join(rest, c) == rest[0] + [c] + Join(rest[1..], c);
          assert s == [s[0]] + s[1..];
        }
      } else {
        assert s == [c] + s[1..];
      }
    }
  }

  /** The last piece of `s.split(c)`: the text after the last separator. */
  function LastPiece(s: string, c: char): string
  {
    var pieces := Split(s, c);
    pieces[|pieces| - 1]
  }

  predicate IsDigit(ch: char)
  {
    '0' <= ch <= '9'
  }

  function DigitChar(d: nat): (ch: char)
    requires d < 10
    ensures IsDigit(ch)
  {
    ['0', '1', '2', '3', '4', '5', '6', '7', '8', '9'][d]
  }

  function DigitValue(ch: char): (d: nat)
    requires IsDigit(ch)
    ensures d < 10
  {
    (ch as int - '0' as int) as nat
  }

  /** Decimal digits of `n` with no leading zero, as Python's `str` writes them. */
  function NatToString(n: nat): (s: string)
    decreases n
  {
    if n < 10 then [DigitChar(n)] else NatToString(n / 10) + [DigitChar(n % 10)]
  }

  /** Python's `str(n)` for an integer: a `-` sign for negative values, then the digits. */
  function IntToString(n: int): string
  {
    if n < 0 then "-" + NatToString(-n) else NatToString(n)
  }

  /** The value of a non-empty string of decimal digits. */
  function DigitsValue(s: string): nat
    requires forall k :: 0 <= k < |s| ==> IsDigit(s[k])
    decreases |s|
  {
    if |s| == 0 then 0 else 10 * DigitsValue(s[..|s| - 1]) + DigitValue(s[|s| - 1])
  }

  predicate AllDigits(s: string)
  {
    |s| > 0 && forall k :: 0 <= k < |s| ==> IsDigit(s[k])
  }

  /** Reads an optionally signed decimal integer; `None` for anything else. */
  function ParseInt(s: string): Option<int>
  {
    if |s| > 0 && s[0] == '-' then
      if AllDigits(s[1..]) then Some(-(DigitsValue(s[1..]) as int)) else None
    else if AllDigits(s) then Some(DigitsValue(s) as int)
    else None
  }

  lemma {:induction false} NatToStringDigits(n: nat)
    ensures AllDigits(NatToString(n))
    ensures DigitsValue(NatToString(n)) == n
    decreases n
  {
    if n >= 10 {
      NatToStringDigits(n / 10);
      var s := NatToString(n);
      assert s[..|s| - 1] == NatToString(n / 10);
      DigitValueOfChar(n % 10);
    } else {
      DigitValueOfChar(n);
    }
  }

  /** `str` writes a positive number without a leading zero. */
  lemma {:induction false} NoLeadingZero(n: nat)
    ensures n > 0 ==> NatToString(n)[0] != '0'
    decreases n
  {
    if n >= 10 {
      NoLeadingZero(n / 10);
    }
  }

  lemma DigitValueOfChar(d: nat)
    requires d < 10
    ensures DigitValue(DigitChar(d)) == d
  {
  }

  /** `str(n)` is read back as `n`: the text of an exit code determines it. */
  lemma IntToStringRoundTrip(n: int)
    ensures ParseInt(IntToString(n)) == Some(n)
  {
    if n < 0 {
      NegativeRoundTrip(n);
    } else {
      NatToStringDigits(n);
      var s := NatToString(n);
      assert IsDigit(s[0]);
    }
  }

  lemma NegativeRoundTrip(n: int)
    requires n < 0
    ensures ParseInt(IntToString(n)) == Some(n)
  {
    NatToStringDigits(-n);
    ParseSigned(NatToString(-n));
  }

  lemma ParseSigned(digits: string)
    requires AllDigits(digits)
    ensures ParseInt("-" + digits) == Some(-(DigitsValue(digits) as int))
  {
    var s := "-" + digits;
    assert s[1..] == digits;
  }

  /** `str(n)` never contains a newline or a space. */
  lemma IntToStringNoSeparator(n: int)
    ensures '\n' !in IntToString(n) && ' ' !in IntToString(n)
  {
    var digits := NatToString(if n < 0 then -n else n);
    NatToStringDigits(if n < 0 then -n else n);
    assert forall k :: 0 <= k < |digits| ==> IsDigit(digits[k]);
  }
}
