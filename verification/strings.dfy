/** Python string and arithmetic primitives used by several source files. */
module PyStrings {

  /** `sep.join(xs)`. */
  function Join(sep: string, xs: seq<string>): string
    decreases |xs|
  {
    if |xs| == 0 then ""
    else if |xs| == 1 then xs[0]
    else xs[0] + sep + Join(sep, xs[1..])
  }

  lemma {:induction false} JoinSnoc(sep: string, xs: seq<string>, x: string)
    requires |xs| > 0
    ensures Join(sep, xs + [x]) == Join(sep, xs) + sep + x
    decreases |xs|
  {
    if |xs| == 1 {
      assert (xs + [x])[1..] == [x];
    } else {
      assert (xs + [x])[1..] == xs[1..] + [x];
      JoinSnoc(sep, xs[1..], x);
    }
  }

  /** `s.split(c)` for a one-character separator: always at least one piece. */
  function Split(c: char, s: string): (r: seq<string>)
    ensures |r| >= 1
    decreases |s|
  {
    if |s| == 0 then [""]
    else
      var rest := Split(c, s[1..]);
      if s[0] == c then [""] + rest
      else [[s[0]] + rest[0]] + rest[1..]
  }

  /** Number of occurrences of `c` in `s`. */
  function Count(c: char, s: string): nat
  {
    if |s| == 0 then 0 else (if s[0] == c then 1 else 0) + Count(c, s[1..])
  }

  /** Every piece of a split is free of the separator, and there is one more piece than separators. */
  lemma {:induction false} SplitPieces(c: char, s: string)
    ensures |Split(c, s)| == Count(c, s) + 1
    ensures forall i :: 0 <= i < |Split(c, s)| ==> c !in Split(c, s)[i]
    decreases |s|
  {
    if |s| > 0 {
      SplitPieces(c, s[1..]);
    }
  }

  /** Joining the pieces of a split with the separator gives the original text back. */
  lemma {:induction false} JoinSplit(c: char, s: string)
    ensures Join([c], Split(c, s)) == s
    decreases |s|
  {
    if |s| > 0 {
      var rest := Split(c, s[1..]);
      JoinSplit(c, s[1..]);
      if s[0] == c {
        assert ([""] + rest)[1..] == rest;
        if |rest| == 1 {
          assert Join([c], [""] + rest) == "" + [c] + rest[0];
        }
        assert s == [c] + s[1..];
      } else {
        var r := [[s[0]] + rest[0]] + rest[1..];
        assert r[1..] == rest[1..];
        if |rest| == 1 {
          assert Join([c], r) == [s[0]] + rest[0];
        } else {
          assert Join([c], rest) == rest[0] + [c] + Join([c], rest[1..]);
        }
        assert s == [s[0]] + s[1..];
      }
    }
  }

  /** Splitting a joined list of separator-free pieces gives the pieces back. */
  lemma {:induction false} SplitJoin(c: char, xs: seq<string>)
    requires |xs| > 0
    requires forall i :: 0 <= i < |xs| ==> c !in xs[i]
    ensures Split(c, Join([c], xs)) == xs
    decreases |xs|
  {
    if |xs| == 1 {
      SplitNoSeparator(c, xs[0]);
    } else {
      SplitJoin(c, xs[1..]);
      SplitAround(c, xs[0], Join([c], xs[1..]));
      SplitNoSeparator(c, xs[0]);
      assert xs == [xs[0]] + xs[1..];
    }
  }

  lemma {:induction false} SplitNoSeparator(c: char, s: string)
    requires c !in s
    ensures Split(c, s) == [s]
    decreases |s|
  {
    if |s| > 0 {
      SplitNoSeparator(c, s[1..]);
      assert s == [s[0]] + s[1..];
    }
  }

  /** A separator occurrence splits the text into the pieces of its two sides. */
  lemma {:induction false} SplitAround(c: char, a: string, b: string)
    ensures Split(c, a + [c] + b) == Split(c, a) + Split(c, b)
    decreases |a|
  {
    if |a| == 0 {
      assert a + [c] + b == [c] + b;
      assert ([c] + b)[1..] == b;
    } else {
      assert (a + [c] + b)[1..] == a[1..] + [c] + b;
      SplitAround(c, a[1..], b);
      SplitHeadStep(c, a[0], Split(c, a[1..]), Split(c, b));
    }
  }

  /** The step of `Split` on a first character distributes over a concatenation whose left
      part is non-empty. */
  lemma SplitHeadStep(c: char, h: char, p: seq<string>, q: seq<string>)
    requires |p| >= 1
    ensures h == c ==> [""] + (p + q) == ([""] + p) + q
    ensures h != c ==> [[h] + (p + q)[0]] + (p + q)[1..] == ([[h] + p[0]] + p[1..]) + q
  {
    if h != c {
      assert (p + q)[1..] == p[1..] + q;
    }
  }

  lemma {:induction false} NoCharInJoin(c: char, sep: string, xs: seq<string>)
    requires c !in sep && forall i :: 0 <= i < |xs| ==> c !in xs[i]
    ensures c !in Join(sep, xs)
    decreases |xs|
  {
    if |xs| > 1 {
      NoCharInJoin(c, sep, xs[1..]);
    }
  }

  /** `s.lstrip(' ')`. */
  function LStrip(s: string): string
    decreases |s|
  {
    if |s| > 0 && s[0] == ' ' then LStrip(s[1..]) else s
  }

  function StrippedPieces(ps: seq<string>): seq<string>
  {
    seq(|ps|, i requires 0 <= i < |ps| => LStrip(ps[i]))
  }

  /** `[p.lstrip(' ') for p in s.split(',')]`: a comma-separated argument list read back. */
  function ReadList(s: string): seq<string>
  {
    StrippedPieces(Split(',', s))
  }

  /** Reading back a `", "`-joined list gives the list, when no item holds a comma or starts
      with a space. */
  lemma {:induction false} ReadListJoin(xs: seq<string>)
    requires |xs| > 0
    requires forall i :: 0 <= i < |xs| ==> ',' !in xs[i] && (|xs[i]| == 0 || xs[i][0] != ' ')
    ensures ReadList(Join(", ", xs)) == xs
    decreases |xs|
  {
    if |xs| == 1 {
      SplitNoSeparator(',', xs[0]);
    } else {
      var j1 := Join(", ", xs[1..]);
      ReadListJoin(xs[1..]);
      assert Join(", ", xs) == xs[0] + [','] + (" " + j1);
      SplitAround(',', xs[0], " " + j1);
      SplitNoSeparator(',', xs[0]);
      SplitSpaceHead(j1);
      StrippedSpaceHead(xs[0], Split(',', j1));
      assert xs == [xs[0]] + xs[1..];
    }
  }

  lemma SplitSpaceHead(s: string)
    ensures Split(',', " " + s) == [[' '] + Split(',', s)[0]] + Split(',', s)[1..]
  {
    assert (" " + s)[1..] == s;
  }

  lemma StrippedSpaceHead(x: string, ps: seq<string>)
    requires |ps| >= 1
    ensures StrippedPieces([x] + ([[' '] + ps[0]] + ps[1..])) == [LStrip(x)] + StrippedPieces(ps)
  {
    assert ([' '] + ps[0])[1..] == ps[0];
  }

  /** A character of `string.whitespace`. */
  predicate IsStringWhitespace(ch: char)
  {
    ch == ' ' || ch == '\t' || ch == '\n' || ch == '\r' || ch == '\U{000B}' || ch == '\U{000C}'
  }

  /** `ch.isspace()`, which is also what the regular-expression class `\s` matches in a
      `str` pattern: the ASCII whitespace, the separators 0x1C-0x1F, NEL, no-break space,
      and the Unicode space separators and line and paragraph separators. */
  predicate IsSpace(ch: char)
  {
    IsStringWhitespace(ch) || ('\U{001C}' <= ch <= '\U{001F}') ||
    ch == '\U{0085}' || ch == '\U{00A0}' || ch == '\U{1680}' || ('\U{2000}' <= ch <= '\U{200A}') ||
    ch == '\U{2028}' || ch == '\U{2029}' || ch == '\U{202F}' || ch == '\U{205F}' || ch == '\U{3000}'
  }

  /** `len(s.strip()) == 0`: every character is whitespace. */
  predicate IsBlank(s: string)
  {
    forall i :: 0 <= i < |s| ==> IsSpace(s[i])
  }

  /** `pow(base, n)` for a natural exponent, on exact reals. */
  function Pow(base: real, n: nat): real
  {
    if n == 0 then 1.0 else base * Pow(base, n - 1)
  }

  /** ASCII decimal digit. */
  predicate IsDigit(ch: char)
  {
    '0' <= ch <= '9'
  }

  /** `str(n)` for a natural number. */
  function NatToString(n: nat): (s: string)
    ensures |s| > 0
    ensures forall i :: 0 <= i < |s| ==> IsDigit(s[i])
    decreases n
  {
    if n < 10 then [DigitChar(n)] else NatToString(n / 10) + [DigitChar(n % 10)]
  }

  /** Distinct numbers have distinct decimal forms. */
  lemma {:induction false} NatToStringInjective(n: nat, m: nat)
    requires NatToString(n) == NatToString(m)
    ensures n == m
    decreases n
  {
    if n >= 10 && m >= 10 {
      var a := NatToString(n);
      assert a[|a| - 1] == DigitChar(n % 10) && a[..|a| - 1] == NatToString(n / 10);
      assert a[|a| - 1] == DigitChar(m % 10) && a[..|a| - 1] == NatToString(m / 10);
      NatToStringInjective(n / 10, m / 10);
    }
  }

  function DigitChar(d: nat): (ch: char)
    requires d < 10
    ensures IsDigit(ch)
  {
    (48 + d) as char
  }
}
