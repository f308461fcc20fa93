/**
 * String helpers with the semantics of the JavaScript built-ins the
 * application relies on: `String.prototype.split` with a one-character
 * separator, taking its first or last piece, and rendering an integer
 * with template-literal interpolation.
 */
module Text {

  import opened Wrappers

  /** The pieces of `s` between occurrences of `sep`, as `s.split(sep)`: never empty. */
  function Split(s: string, sep: char): (parts: seq<string>)
    ensures |parts| >= 1
    ensures forall i :: 0 <= i < |parts| ==> sep !in parts[i]
  {
    if |s| == 0 then [""]
    else
      var rest := Split(s[1..], sep);
      if s[0] == sep then [""] + rest
      else [[s[0]] + rest[0]] + rest[1..]
  }

  /** The pieces glued back together with `sep` between neighbours, as `parts.join(sep)`. */
  function Join(parts: seq<string>, sep: char): string
    requires |parts| >= 1
  {
    if |parts| == 1 then parts[0] else parts[0] + [sep] + Join(parts[1..], sep)
  }

  /** `s.split(sep)[0]`: the text before the first `sep`. */
  function FirstPiece(s: string, sep: char): string {
    Split(s, sep)[0]
  }

  /** The last element of a sequence, as JavaScript's `Array.prototype.pop` returns it. */
  function Pop<T>(xs: seq<T>): Option<T> {
    if |xs| == 0 then None else Some(xs[|xs| - 1])
  }

  lemma {:induction false} SplitNoSeparator(s: string, sep: char)
    requires sep !in s
    ensures Split(s, sep) == [s]
  {
    if |s| > 0 {
      assert s[0] != sep && sep !in s[1..];
      SplitNoSeparator(s[1..], sep);
      assert [s[0]] + s[1..] == s;
    }
  }

  /** The pieces of `[c] + t`, given the pieces of `t`. */
  function ConsPieces(c: char, sep: char, pieces: seq<string>): seq<string>
    requires |pieces| >= 1
  {
    if c == sep then [""] + pieces else [[c] + pieces[0]] + pieces[1..]
  }

  /** One step of splitting: the first character either starts a new piece or joins the first one. */
  lemma SplitCons(c: char, t: string, sep: char)
    ensures Split([c] + t, sep) == ConsPieces(c, sep, Split(t, sep))
  {
    assert ([c] + t)[0] == c && ([c] + t)[1..] == t;
  }

  lemma ConsPiecesAppend(c: char, sep: char, front: seq<string>, back: seq<string>)
    requires |front| >= 1
    ensures ConsPieces(c, sep, front + back) == ConsPieces(c, sep, front) + back
  {
    if c != sep {
      assert (front + back)[0] == front[0];
      assert (front + back)[1..] == front[1..] + back;
    }
  }

  /** Splitting distributes over a separator: the pieces of `a`, then the pieces of `b`. */
  lemma {:induction false} SplitAroundSeparator(a: string, b: string, sep: char)
    ensures Split(a + [sep] + b, sep) == Split(a, sep) + Split(b, sep)
  {
    if |a| == 0 {
      assert a + [sep] + b == [sep] + b;
      SplitCons(sep, b, sep);
    } else {
      var c, t := a[0], a[1..];
      assert a == [c] + t;
      assert a + [sep] + b == [c] + (t + [sep] + b);
      SplitAroundSeparator(t, b, sep);
      SplitCons(c, t + [sep] + b, sep);
      SplitCons(c, t, sep);
      ConsPiecesAppend(c, sep, Split(t, sep), Split(b, sep));
    }
  }

  /** Splitting and re-joining gives back the original text. */
  lemma {:induction false} SplitThenJoin(s: string, sep: char)
    ensures Join(Split(s, sep), sep) == s
  {
    if |s| > 0 {
      var rest := Split(s[1..], sep);
      SplitThenJoin(s[1..], sep);
      if s[0] == sep {
        assert ([""] + rest)[1..] == rest;
        assert s == [sep] + s[1..];
      } else {
        var parts := [[s[0]] + rest[0]] + rest[1..];
        if |rest| == 1 {
          assert s == [s[0]] + s[1..];
        } else {
          assert parts[1..] == rest[1..];
          assert Join(rest, sep) == rest[0] + [sep] + Join(rest[1..], sep);
          assert s == [s[0]] + s[1..];
        }
      }
    }
  }

  /** Joining separator-free pieces and splitting again gives back the pieces. */
  lemma {:induction false} JoinThenSplit(parts: seq<string>, sep: char)
    requires |parts| >= 1
    requires forall i :: 0 <= i < |parts| ==> sep !in parts[i]
    ensures Split(Join(parts, sep), sep) == parts
  {
    SplitNoSeparator(parts[0], sep);
    if |parts| > 1 {
      JoinThenSplit(parts[1..], sep);
      SplitAroundSeparator(parts[0], Join(parts[1..], sep), sep);
      assert [parts[0]] + parts[1..] == parts;
    }
  }

  /** The last piece is preceded by the rest joined and a separator. */
  lemma {:induction false} JoinLast(parts: seq<string>, sep: char)
    requires |parts| >= 2
    ensures Join(parts, sep) == Join(parts[..|parts| - 1], sep) + [sep] + parts[|parts| - 1]
  {
    if |parts| > 2 {
      JoinLast(parts[1..], sep);
      assert parts[1..][..|parts| - 2] == parts[..|parts| - 1][1..];
    }
  }

  /**
   * `s.split(sep)[0]` is the longest prefix of `s` free of `sep`: it is a
   * prefix, holds no `sep`, and is followed by `sep` unless it is all of `s`.
   */
  lemma FirstPieceIsPrefixBeforeSeparator(s: string, sep: char)
    ensures var r := FirstPiece(s, sep);
      && r <= s
      && sep !in r
      && (|r| < |s| ==> s[|r|] == sep)
  {
    var parts := Split(s, sep);
    SplitThenJoin(s, sep);
    if |parts| > 1 {
      assert s == parts[0] + [sep] + Join(parts[1..], sep);
    }
  }

  /**
   * The last piece of `s.split(sep)` is the longest suffix of `s` free of
   * `sep`: it is a suffix, holds no `sep`, and is preceded by `sep` unless
   * it is all of `s`.
   */
  lemma LastPieceIsSuffixAfterSeparator(s: string, sep: char)
    ensures Pop(Split(s, sep)).Some?
    ensures var r := Pop(Split(s, sep)).value;
      && |r| <= |s| && s[|s| - |r|..] == r
      && sep !in r
      && (|r| < |s| ==> s[|s| - |r| - 1] == sep)
  {
    var parts := Split(s, sep);
    SplitThenJoin(s, sep);
    if |parts| > 1 {
      JoinLast(parts, sep);
      var front := Join(parts[..|parts| - 1], sep);
      assert s == front + [sep] + parts[|parts| - 1];
    }
  }

  /**
   * In `a + sep + b`, the first piece is `a` when `a` holds no `sep`, and
   * the last piece is `b` when `b` holds no `sep`.
   */
  lemma PiecesAroundSeparator(a: string, b: string, sep: char)
    ensures sep !in a ==> FirstPiece(a + [sep] + b, sep) == a
    ensures sep !in b ==> Pop(Split(a + [sep] + b, sep)) == Some(b)
  {
    SplitAroundSeparator(a, b, sep);
    if sep !in a {
      SplitNoSeparator(a, sep);
    }
    if sep !in b {
      SplitNoSeparator(b, sep);
    }
  }

  predicate IsDigit(c: char) {
    '0' <= c <= '9'
  }

  predicate AllDigits(s: string) {
    forall i :: 0 <= i < |s| ==> IsDigit(s[i])
  }

  function DigitChar(d: nat): (c: char)
    requires d < 10
    ensures IsDigit(c)
  {
    ('0' as int + d) as char
  }

  function DigitValue(c: char): (d: nat)
    requires IsDigit(c)
    ensures d < 10
  {
    c as int - '0' as int
  }

  /** Base-ten digits of `n` without leading zeros, as JavaScript renders a non-negative integer. */
  function NatToDecimal(n: nat): (r: string)
    ensures |r| >= 1
    ensures AllDigits(r)
    ensures r[0] == '0' ==> r == "0"
    decreases n
  {
    if n < 10 then [DigitChar(n)] else NatToDecimal(n / 10) + [DigitChar(n % 10)]
  }

  /** The value of a string of base-ten digits. */
  function DecimalValue(s: string): nat
    requires AllDigits(s)
  {
    if |s| == 0 then 0 else DecimalValue(s[..|s| - 1]) * 10 + DigitValue(s[|s| - 1])
  }

  /** An integer as template-literal interpolation renders it: a leading `-` for negatives. */
  function IntToDecimal(n: int): (r: string)
    ensures |r| >= 1
    ensures forall i :: 0 <= i < |r| ==> r[i] == '-' || IsDigit(r[i])
  {
    if n < 0 then "-" + NatToDecimal(-n) else NatToDecimal(n)
  }

  /** Reads an integer back from its rendering; `None` for text that is not one. */
  function ParseInt(s: string): Option<int> {
    if |s| >= 2 && s[0] == '-' && AllDigits(s[1..]) then Some(0 - DecimalValue(s[1..]) as int)
    else if |s| >= 1 && AllDigits(s) then Some(DecimalValue(s))
    else None
  }

  lemma {:induction false} NatDecimalRoundTrip(n: nat)
    ensures DecimalValue(NatToDecimal(n)) == n
    decreases n
  {
    if n >= 10 {
      var front := NatToDecimal(n / 10);
      var r := front + [DigitChar(n % 10)];
      assert r[..|r| - 1] == front;
      NatDecimalRoundTrip(n / 10);
    }
  }

  lemma ParseNegative(digits: string)
    requires |digits| >= 1 && AllDigits(digits)
    ensures ParseInt("-" + digits) == Some(0 - DecimalValue(digits) as int)
  {
    var r := "-" + digits;
    assert r[0] == '-' && r[1..] == digits;
  }

  lemma ParseNonNegative(digits: string)
    requires |digits| >= 1 && AllDigits(digits)
    ensures ParseInt(digits) == Some(DecimalValue(digits) as int)
  {
    assert IsDigit(digits[0]);
  }

  /** Rendering an integer loses nothing: it parses back to the same value. */
  lemma IntDecimalRoundTrip(n: int)
    ensures ParseInt(IntToDecimal(n)) == Some(n)
  {
    if n < 0 {
      ParseNegative(NatToDecimal(-n));
      NatDecimalRoundTrip(-n);
    } else {
      ParseNonNegative(NatToDecimal(n));
      NatDecimalRoundTrip(n);
    }
  }

  /** A rendered integer contains none of the given non-numeric characters. */
  lemma DecimalAvoids(n: int, c: char)
    requires c != '-' && !IsDigit(c)
    ensures c !in IntToDecimal(n)
  {
  }
}
