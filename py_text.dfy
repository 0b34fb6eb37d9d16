/** The pieces of Python's text handling the modules rely on: `str()` of an
    integer, `sep.join(...)`, and the slice `s[:-1]`. */
module PyText {

  /** The character for a decimal digit. */
  function DigitChar(d: nat): (c: char)
    requires d < 10
    ensures '0' <= c <= '9'
    ensures c as int - '0' as int == d
  {
    ('0' as int + d) as char
  }

  /** Decimal digits of a natural number, most significant first, as `str(n)` prints them. */
  function DecimalDigits(n: nat): (s: string)
    ensures |s| >= 1
    ensures '0' <= s[0] <= '9'
    ensures s[0] == '0' ==> n == 0
  {
    if n < 10 then [DigitChar(n)] else DecimalDigits(n / 10) + [DigitChar(n % 10)]
  }

  /** `str(i)` for a Python `int`: a minus sign for negative numbers, then the digits. */
  function IntToString(i: int): (s: string)
    ensures |s| >= 1
    ensures (s[0] == '-') <==> i < 0
  {
    if i < 0 then "-" + DecimalDigits(-i) else DecimalDigits(i)
  }

  /** The value of a string of decimal digits (the reading direction of `int(s)`). */
  function DigitsValue(s: string): int
  {
    if s == [] then 0
    else DigitsValue(s[..|s| - 1]) * 10 + (s[|s| - 1] as int - '0' as int)
  }

  /** `int(s)` for an optionally signed decimal string. */
  function ParseInt(s: string): int
  {
    if |s| > 0 && s[0] == '-' then -DigitsValue(s[1..]) else DigitsValue(s)
  }

  lemma {:induction false} DecimalDigitsRoundTrip(n: nat)
    ensures DigitsValue(DecimalDigits(n)) == n
  {
    if n >= 10 {
      DecimalDigitsRoundTrip(n / 10);
      var s := DecimalDigits(n);
      assert s[..|s| - 1] == DecimalDigits(n / 10);
    }
  }

  /** `int(str(i)) == i`: the decimal rendering loses nothing. */
  lemma IntToStringRoundTrip(i: int)
    ensures ParseInt(IntToString(i)) == i
  {
    if i < 0 {
      DecimalDigitsRoundTrip(-i);
      assert IntToString(i)[1..] == DecimalDigits(-i);
    } else {
      DecimalDigitsRoundTrip(i);
    }
  }

  /** Distinct integers render as distinct strings. */
  lemma IntToStringInjective(i: int, j: int)
    requires IntToString(i) == IntToString(j)
    ensures i == j
  {
    IntToStringRoundTrip(i);
    IntToStringRoundTrip(j);
  }

  /** `sep.join(xs)`. */
  function JoinWith(sep: string, xs: seq<string>): string
  {
    if |xs| == 0 then ""
    else if |xs| == 1 then xs[0]
    else xs[0] + sep + JoinWith(sep, xs[1..])
  }

  /** Appending one more element to a non-empty join adds the separator and the element. */
  lemma {:induction false} JoinWithSnoc(sep: string, xs: seq<string>, x: string)
    requires |xs| >= 1
    ensures JoinWith(sep, xs + [x]) == JoinWith(sep, xs) + sep + x
  {
    if |xs| == 1 {
      assert xs + [x] == [xs[0], x];
    } else {
      assert (xs + [x])[1..] == xs[1..] + [x];
      JoinWithSnoc(sep, xs[1..], x);
    }
  }

  /** The concatenation of the chunks, in order. */
  function Concat<T>(chunks: seq<seq<T>>): seq<T>
  {
    if chunks == [] then []
    else Concat(chunks[..|chunks| - 1]) + chunks[|chunks| - 1]
  }

  /** Concatenating two runs of chunks concatenates their concatenations. */
  lemma {:induction false} ConcatAppend<T>(a: seq<seq<T>>, b: seq<seq<T>>)
    ensures Concat(a + b) == Concat(a) + Concat(b)
  {
    if b == [] {
      assert a + b == a;
    } else {
      assert (a + b)[..|a + b| - 1] == a + b[..|b| - 1];
      ConcatAppend(a, b[..|b| - 1]);
    }
  }

  /** `"".join(x + "," for x in xs)`: every string followed by a comma. */
  function Terminated(xs: seq<string>): string
  {
    if xs == [] then ""
    else Terminated(xs[..|xs| - 1]) + xs[|xs| - 1] + ","
  }

  /** Trimming the last comma of the comma-terminated strings gives their comma-join. */
  lemma {:induction false} TerminatedIsCommaJoin(xs: seq<string>)
    ensures DropLast(Terminated(xs)) == JoinWith(",", xs)
  {
    if |xs| == 1 {
      assert xs[..0] == [];
      DropLastAppend(xs[0], ',');
    } else if |xs| > 1 {
      var init, last := xs[..|xs| - 1], xs[|xs| - 1];
      var t := Terminated(init);
      DropLastAppend(t + last, ',');
      assert DropLast(Terminated(xs)) == t + last;
      TerminatedIsCommaJoin(init);
      TerminatedEndsWithComma(init);
      assert t == DropLast(t) + ",";
      JoinWithSnoc(",", init, last);
      assert init + [last] == xs;
    }
  }

  /** A non-empty run of comma-terminated strings ends in the comma `[:-1]` removes. */
  lemma TerminatedEndsWithComma(xs: seq<string>)
    requires xs != []
    ensures Terminated(xs) == DropLast(Terminated(xs)) + ","
  {
    DropLastAppend(Terminated(xs[..|xs| - 1]) + xs[|xs| - 1], ',');
  }

  /** `s[:-1]`: the string without its last character; the empty string stays empty. */
  function DropLast(s: string): string
  {
    if |s| == 0 then s else s[..|s| - 1]
  }

  /** `(s + c)[:-1] == s`: trimming undoes appending one character. */
  lemma DropLastAppend(s: string, c: char)
    ensures DropLast(s + [c]) == s
  {
    assert (s + [c])[..|s|] == s;
  }
}
