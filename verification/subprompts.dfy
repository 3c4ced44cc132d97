/** The legacy colon-weighted sub-prompt splitter `split_weighted_subprompts`. The two copies
    of it (ldm/invoke/conditioning.py and ldm/dream/conditioning.py) are the same code, so
    they share this one model. The regular expression is modelled by the scanner below. */
module WeightedSubprompts {
  import opened Wrappers
  import opened PyStrings

  // ----- the regular expression, one piece at a time -----

  /** Length of the `prompt` group at the start of `s`: a greedy run of units, each either
      the escape `\:` or one character other than `:`. */
  function PromptLength(s: string): (n: nat)
    ensures n <= |s|
    ensures n < |s| ==> s[n] == ':'
    ensures |s| > 0 && s[0] != ':' ==> n >= 1
    decreases |s|
  {
    if |s| >= 2 && s[0] == '\\' && s[1] == ':' then 2 + PromptLength(s[2..])
    else if |s| > 0 && s[0] != ':' then 1 + PromptLength(s[1..])
    else 0
  }

  /** Length of the leading run of `c`. */
  function RunLength(c: char, s: string): (n: nat)
    ensures n <= |s|
    decreases |s|
  {
    if |s| > 0 && s[0] == c then 1 + RunLength(c, s[1..]) else 0
  }

  /** Length of the leading run of digits. */
  function DigitRun(s: string): (n: nat)
    ensures n <= |s|
    ensures forall i :: 0 <= i < n ==> IsDigit(s[i])
    ensures n < |s| ==> !IsDigit(s[n])
    decreases |s|
  {
    if |s| > 0 && IsDigit(s[0]) then 1 + DigitRun(s[1..]) else 0
  }

  /** Length of the leading run of whitespace (`\s*`). */
  function SpaceRun(s: string): (n: nat)
    ensures n <= |s|
    ensures n < |s| ==> !IsSpace(s[n])
    decreases |s|
  {
    if |s| > 0 && IsSpace(s[0]) then 1 + SpaceRun(s[1..]) else 0
  }

  /** Length of the optional `(?:\.\d+)` part at the start of `s`, 0 if it does not match. */
  function FractionLength(s: string): (n: nat)
    ensures n <= |s|
  {
    if |s| > 0 && s[0] == '.' && DigitRun(s[1..]) > 0 then 1 + DigitRun(s[1..]) else 0
  }

  /** Length of the `weight` group `-?\d+(?:\.\d+)?` at the start of `s`, 0 if it does not match. */
  function NumberLength(s: string): (n: nat)
    ensures n <= |s|
  {
    var sign := if |s| > 0 && s[0] == '-' then 1 else 0;
    var d := DigitRun(s[sign..]);
    if d == 0 then 0 else sign + d + FractionLength(s[sign + d..])
  }

  /** A complete number in the syntax of the `weight` group. */
  predicate IsNumberText(w: string)
  {
    |w| > 0 && NumberLength(w) == |w|
  }

  function DigitsValue(ds: string): nat
    decreases |ds|
  {
    if |ds| == 0 then 0
    else 10 * DigitsValue(ds[..|ds| - 1]) + ((ds[|ds| - 1] as int - '0' as int) % 10)
  }

  function Pow10(n: nat): (r: nat)
    ensures r >= 1
  {
    if n == 0 then 1 else 10 * Pow10(n - 1)
  }

  /** `float(text)` on exact reals, for text in the syntax of the `weight` group. */
  function NumberValue(w: string): (r: real)
    ensures |w| > 0 && w[0] == '-' ==> r <= 0.0
    ensures !(|w| > 0 && w[0] == '-') ==> r >= 0.0
  {
    var neg := |w| > 0 && w[0] == '-';
    var b := if neg then w[1..] else w;
    var d := DigitRun(b);
    var whole := DigitsValue(b[..d]) as real;
    var frac := if d < |b| then DigitsValue(b[d + 1..]) as real / (Pow10(|b| - d - 1) as real) else 0.0;
    if neg then -(whole + frac) else whole + frac
  }

  /** One match of the pattern: the raw `prompt` group and the optional `weight` group. */
  datatype RawMatch = RawMatch(prompt: string, weight: Option<string>)

  /** The `weight` group after a prompt that stopped at a colon: colons, then an optional number. */
  function WeightGroup(rest: string): Option<string>
  {
    var afterColons := rest[RunLength(':', rest)..];
    var w := NumberLength(afterColons);
    if w == 0 then None else Some(afterColons[..w])
  }

  /** What is left after the colons, the number and the trailing `\s*`. */
  function AfterWeight(rest: string): (r: string)
    ensures |r| <= |rest|
  {
    var afterColons := rest[RunLength(':', rest)..];
    var afterNumber := afterColons[NumberLength(afterColons)..];
    afterNumber[SpaceRun(afterNumber)..]
  }

  /** `re.finditer(prompt_parser, s)`: positions where no match starts (a `:`) are skipped;
      after a prompt come either the end of the text, or colons, an optional weight and
      whitespace. */
  function Matches(s: string): (r: seq<RawMatch>)
    ensures |r| <= |s|
    ensures forall i :: 0 <= i < |r| ==> |r[i].prompt| > 0
    decreases |s|
  {
    if |s| == 0 then []
    else if s[0] == ':' then Matches(s[1..])
    else
      var p := PromptLength(s);
      if p == |s| then [RawMatch(s, None)]
      else [RawMatch(s[..p], WeightGroup(s[p..]))] + Matches(AfterWeight(s[p..]))
  }

  /** `text.replace("\\:", ":")`. */
  function UnescapeColons(s: string): (r: string)
    ensures |r| <= |s|
    ensures '\\' !in s ==> r == s
    decreases |s|
  {
    if |s| >= 2 && s[0] == '\\' && s[1] == ':' then ":" + UnescapeColons(s[2..])
    else if |s| == 0 then ""
    else [s[0]] + UnescapeColons(s[1..])
  }

  /** A sub-prompt and its weight. */
  datatype Subprompt = Subprompt(text: string, weight: real)

  /** The list comprehension over the matches: unescaped text, weight defaulting to 1. */
  function Parsed(s: string): (r: seq<Subprompt>)
    ensures |r| == |Matches(s)|
  {
    var ms := Matches(s);
    seq(|ms|, i requires 0 <= i < |ms| =>
      Subprompt(UnescapeColons(ms[i].prompt), if ms[i].weight.None? then 1.0 else NumberValue(ms[i].weight.value)))
  }

  function WeightSum(ps: seq<Subprompt>): real
    decreases |ps|
  {
    if |ps| == 0 then 0.0 else WeightSum(ps[..|ps| - 1]) + ps[|ps| - 1].weight
  }

  function Texts(ps: seq<Subprompt>): seq<string>
  {
    seq(|ps|, i requires 0 <= i < |ps| => ps[i].text)
  }

  /** The normalisation step: weights divided by their sum, or all equal to 1/n when the
      sum is zero. */
  function Normalise(ps: seq<Subprompt>): (r: seq<Subprompt>)
    ensures Texts(r) == Texts(ps)
    ensures WeightSum(ps) == 0.0 ==> forall i :: 0 <= i < |r| ==> r[i].weight == 1.0 / (|r| as real)
    ensures WeightSum(ps) != 0.0 ==> forall i :: 0 <= i < |r| ==> r[i].weight == ps[i].weight / WeightSum(ps)
  {
    var sum := WeightSum(ps);
    if sum == 0.0 then
      var equal := 1.0 / (if |ps| > 1 then |ps| else 1) as real;
      seq(|ps|, i requires 0 <= i < |ps| => Subprompt(ps[i].text, equal))
    else
      seq(|ps|, i requires 0 <= i < |ps| => Subprompt(ps[i].text, ps[i].weight / sum))
  }

  /** `split_weighted_subprompts(text, skip_normalize)`. */
  function SplitWeightedSubprompts(text: string, skipNormalize: bool): (r: seq<Subprompt>)
    ensures skipNormalize ==> r == Parsed(text)
    ensures !skipNormalize ==> r == Normalise(Parsed(text))
  {
    var parsed := Parsed(text);
    if skipNormalize then parsed else Normalise(parsed)
  }

  /** Dividing every weight by the same non-zero number divides the sum by it. */
  lemma {:induction false} WeightSumScaled(ps: seq<Subprompt>, qs: seq<Subprompt>, d: real)
    requires d != 0.0 && |qs| == |ps|
    requires forall i :: 0 <= i < |ps| ==> qs[i].weight == ps[i].weight / d
    ensures WeightSum(qs) == WeightSum(ps) / d
    decreases |ps|
  {
    if |ps| > 0 {
      WeightSumScaled(ps[..|ps| - 1], qs[..|qs| - 1], d);
    }
  }

  /** The sum of n copies of one weight. */
  lemma {:induction false} WeightSumConstant(qs: seq<Subprompt>, w: real)
    requires forall i :: 0 <= i < |qs| ==> qs[i].weight == w
    ensures WeightSum(qs) == (|qs| as real) * w
    decreases |qs|
  {
    if |qs| > 0 {
      WeightSumConstant(qs[..|qs| - 1], w);
    }
  }

  /** After normalisation a non-empty list of weights sums to 1: either each is divided by
      the sum, or, when the raw weights sum to zero, each is 1/n. */
  lemma NormalisedWeightsSumToOne(ps: seq<Subprompt>)
    requires |ps| > 0
    ensures WeightSum(Normalise(ps)) == 1.0
  {
    var r := Normalise(ps);
    assert |r| == |Texts(r)| == |Texts(ps)| == |ps|;
    var sum := WeightSum(ps);
    if sum == 0.0 {
      var n := |r| as real;
      WeightSumConstant(r, 1.0 / n);
      assert n * (1.0 / n) == 1.0;
    } else {
      WeightSumScaled(ps, r, sum);
      assert sum / sum == 1.0;
    }
  }

  // ----- what the scanner does to well-formed input -----

  /** `t.replace(":", "\\:")`: the escaped form of a sub-prompt text. */
  function EscapeColons(t: string): (r: string)
    ensures |t| > 0 ==> |r| > 0 && r[0] == (if t[0] == ':' then '\\' else t[0])
    decreases |t|
  {
    if |t| == 0 then "" else (if t[0] == ':' then "\\:" else [t[0]]) + EscapeColons(t[1..])
  }

  /** A text the legacy syntax can carry: non-empty, not starting with whitespace (the
      previous `\s*` would eat it) and not ending with a backslash (it would escape the
      separating colon). */
  predicate Carriable(t: string)
  {
    |t| > 0 && !IsSpace(t[0]) && t[|t| - 1] != '\\'
  }

  /** A sub-prompt written in the legacy syntax: its escaped text, a colon and a number. */
  datatype Written = Written(text: string, weight: string)

  function WriteOne(x: Written): string
  {
    EscapeColons(x.text) + ":" + x.weight
  }

  /** Written sub-prompts separated by single spaces. */
  function Render(xs: seq<Written>): string
    decreases |xs|
  {
    if |xs| == 0 then "" else if |xs| == 1 then WriteOne(xs[0]) else WriteOne(xs[0]) + " " + Render(xs[1..])
  }

  lemma {:induction false} PromptLengthOfEscaped(t: string, rest: string)
    requires |t| == 0 || t[|t| - 1] != '\\'
    ensures PromptLength(EscapeColons(t) + ":" + rest) == |EscapeColons(t)|
    decreases |t|
  {
    var s := EscapeColons(t) + ":" + rest;
    if |t| == 0 {
      assert s == ":" + rest;
    } else {
      var tail := EscapeColons(t[1..]) + ":" + rest;
      if t[0] == ':' {
        assert s == "\\:" + tail;
        assert s[2..] == tail;
      } else {
        assert s == [t[0]] + tail;
        assert s[1..] == tail;
        if |t| == 1 {
          assert tail[0] == ':';
        } else {
          assert tail[0] == EscapeColons(t[1..])[0];
        }
      }
      PromptLengthOfEscaped(t[1..], rest);
    }
  }

  /** Unescaping the escaped text gives the text back. */
  lemma {:induction false} UnescapeEscaped(t: string)
    ensures UnescapeColons(EscapeColons(t)) == t
    decreases |t|
  {
    if |t| > 0 {
      UnescapeEscaped(t[1..]);
      var tail := EscapeColons(t[1..]);
      if t[0] == ':' {
        assert ("\\:" + tail)[2..] == tail;
      } else {
        assert ([t[0]] + tail)[1..] == tail;
        assert |tail| > 0 ==> tail[0] != ':';
      }
      assert t == [t[0]] + t[1..];
    }
  }

  lemma {:induction false} DigitRunPrefix(x: string, tail: string)
    requires DigitRun(x) < |x| || |tail| == 0 || !IsDigit(tail[0])
    ensures DigitRun(x + tail) == DigitRun(x)
    decreases |x|
  {
    if |x| == 0 {
      assert x + tail == tail;
    } else {
      assert (x + tail)[0] == x[0];
      if IsDigit(x[0]) {
        assert (x + tail)[1..] == x[1..] + tail;
        DigitRunPrefix(x[1..], tail);
      }
    }
  }

  lemma FractionPrefix(x: string, tail: string)
    requires FractionLength(x) == |x|
    requires |tail| == 0 || tail[0] == ' '
    ensures FractionLength(x + tail) == |x|
  {
    if |x| == 0 {
      assert x + tail == tail;
    } else {
      assert (x + tail)[0] == '.';
      assert (x + tail)[1..] == x[1..] + tail;
      DigitRunPrefix(x[1..], tail);
    }
  }

  /** A complete number followed by a space or the end is matched whole. */
  lemma NumberStops(w: string, tail: string)
    requires IsNumberText(w)
    requires |tail| == 0 || tail[0] == ' '
    ensures NumberLength(w + tail) == |w|
  {
    var s := w + tail;
    var sign := if w[0] == '-' then 1 else 0;
    var d := DigitRun(w[sign..]);
    NumberParts(w, sign, d);
    assert s[0] == w[0];
    DropOfConcat(w, tail, sign);
    DigitRunPrefix(w[sign..], tail);
    DropOfConcat(w, tail, sign + d);
    FractionPrefix(w[sign + d..], tail);
    NumberLengthOf(s, sign, d);
  }

  lemma DropOfConcat(a: string, b: string, k: nat)
    requires k <= |a|
    ensures (a + b)[k..] == a[k..] + b
  {
  }

  /** A complete number: its sign, a non-empty digit run, and a fraction filling the rest. */
  lemma NumberParts(w: string, sign: nat, d: nat)
    requires IsNumberText(w)
    requires sign == (if w[0] == '-' then 1 else 0) && sign <= |w| && d == DigitRun(w[sign..])
    ensures d > 0 && sign + d <= |w| && FractionLength(w[sign + d..]) == |w| - sign - d
  {
  }

  lemma NumberLengthOf(s: string, sign: nat, d: nat)
    requires |s| > 0 && sign == (if s[0] == '-' then 1 else 0) && d > 0 && sign + d <= |s|
    requires DigitRun(s[sign..]) == d
    ensures NumberLength(s) == sign + d + FractionLength(s[sign + d..])
  {
  }

  lemma WeightAfterColon(w: string, tail: string)
    requires IsNumberText(w)
    requires |tail| == 0 || (tail[0] == ' ' && (|tail| == 1 || !IsSpace(tail[1])))
    ensures WeightGroup(":" + w + tail) == Some(w)
    ensures AfterWeight(":" + w + tail) == if |tail| == 0 then "" else tail[1..]
  {
    var rest := ":" + w + tail;
    assert w[0] == '-' || IsDigit(w[0]);
    assert rest[1..] == w + tail;
    assert RunLength(':', rest) == 1;
    NumberStops(w, tail);
    assert (w + tail)[..|w|] == w;
    assert (w + tail)[|w|..] == tail;
    if |tail| > 0 {
      assert SpaceRun(tail) == 1;
    }
  }

  /** One step of the scanner at a prompt that stops at a colon. */
  lemma MatchesStep(s: string)
    requires |s| > 0 && s[0] != ':' && PromptLength(s) < |s|
    ensures Matches(s) == [RawMatch(s[..PromptLength(s)], WeightGroup(s[PromptLength(s)..]))] +
      Matches(AfterWeight(s[PromptLength(s)..]))
  {
  }

  /** The escaped text of a written sub-prompt is its prompt group. */
  lemma PromptOfWritten(x: Written, tail: string)
    requires Carriable(x.text) && IsNumberText(x.weight)
    ensures var s := WriteOne(x) + tail; var e := EscapeColons(x.text);
      s[0] != ':' && PromptLength(s) == |e| < |s| && s[..|e|] == e && s[|e|..] == ":" + x.weight + tail
  {
    var e := EscapeColons(x.text);
    var s := WriteOne(x) + tail;
    assert s == e + ":" + (x.weight + tail);
    PromptLengthOfEscaped(x.text, x.weight + tail);
    assert s[0] == e[0];
    assert s[|e|..] == ":" + x.weight + tail;
    assert s[..|e|] == e;
  }

  /** One written sub-prompt followed by the end, or by a space and text that does not start
      with whitespace, is matched on its own. */
  lemma MatchesOne(x: Written, tail: string, next: string)
    requires Carriable(x.text) && IsNumberText(x.weight)
    requires (tail == "" && next == "") || (tail == " " + next && (|next| == 0 || !IsSpace(next[0])))
    ensures Matches(WriteOne(x) + tail) == [RawMatch(EscapeColons(x.text), Some(x.weight))] + Matches(next)
  {
    var s := WriteOne(x) + tail;
    PromptOfWritten(x, tail);
    WeightAfterColon(x.weight, tail);
    MatchesStep(s);
  }

  /** What splitting a rendering should give: each text with the value of its weight. */
  function Decoded(xs: seq<Written>): (r: seq<Subprompt>)
    ensures |r| == |xs|
  {
    seq(|xs|, i requires 0 <= i < |xs| => Subprompt(xs[i].text, NumberValue(xs[i].weight)))
  }

  /** What scanning a rendering should find: each escaped text with its weight text. */
  function WrittenMatches(xs: seq<Written>): (r: seq<RawMatch>)
    ensures |r| == |xs|
  {
    seq(|xs|, i requires 0 <= i < |xs| => RawMatch(EscapeColons(xs[i].text), Some(xs[i].weight)))
  }

  lemma WrittenMatchesCons(xs: seq<Written>)
    requires |xs| > 0
    ensures WrittenMatches(xs) == [RawMatch(EscapeColons(xs[0].text), Some(xs[0].weight))] + WrittenMatches(xs[1..])
  {
    var r := [RawMatch(EscapeColons(xs[0].text), Some(xs[0].weight))] + WrittenMatches(xs[1..]);
    forall i | 0 <= i < |xs| ensures WrittenMatches(xs)[i] == r[i] {
      if i > 0 { assert xs[1..][i - 1] == xs[i]; }
    }
  }

  /** Round trip: writing carriable texts with numeric weights in the legacy syntax and
      splitting the result gives back each text, in order, with the value of its weight. */
  lemma SplitRendered(xs: seq<Written>)
    requires forall i :: 0 <= i < |xs| ==> Carriable(xs[i].text) && IsNumberText(xs[i].weight)
    ensures Parsed(Render(xs)) == Decoded(xs)
  {
    MatchesRendered(xs);
    ParsedOfWritten(Render(xs), xs);
  }

  /** Text whose matches are those of written sub-prompts parses to their decoded form. */
  lemma ParsedOfWritten(s: string, xs: seq<Written>)
    requires Matches(s) == WrittenMatches(xs)
    ensures Parsed(s) == Decoded(xs)
  {
    var ms := Matches(s);
    forall i | 0 <= i < |xs|
      ensures Parsed(s)[i] == Decoded(xs)[i]
    {
      assert ms[i] == RawMatch(EscapeColons(xs[i].text), Some(xs[i].weight));
      UnescapeEscaped(xs[i].text);
    }
  }

  /** The scanner finds exactly the written sub-prompts, escaped text and weight text. */
  lemma {:induction false} MatchesRendered(xs: seq<Written>)
    requires forall i :: 0 <= i < |xs| ==> Carriable(xs[i].text) && IsNumberText(xs[i].weight)
    ensures Matches(Render(xs)) == WrittenMatches(xs)
    decreases |xs|
  {
    if |xs| == 0 {
      assert Render(xs) == "";
    } else if |xs| == 1 {
      MatchesRenderedLast(xs);
    } else {
      MatchesRendered(xs[1..]);
      MatchesRenderedStep(xs);
    }
  }

  lemma MatchesRenderedLast(xs: seq<Written>)
    requires |xs| == 1 && Carriable(xs[0].text) && IsNumberText(xs[0].weight)
    ensures Matches(Render(xs)) == WrittenMatches(xs)
  {
    assert Render(xs) == WriteOne(xs[0]) + "";
    MatchesOne(xs[0], "", "");
    WrittenMatchesCons(xs);
    assert Matches("") == [];
  }

  lemma MatchesRenderedStep(xs: seq<Written>)
    requires |xs| > 1 && Carriable(xs[0].text) && IsNumberText(xs[0].weight) && Carriable(xs[1].text)
    requires Matches(Render(xs[1..])) == WrittenMatches(xs[1..])
    ensures Matches(Render(xs)) == WrittenMatches(xs)
  {
    var next := Render(xs[1..]);
    assert Render(xs) == WriteOne(xs[0]) + (" " + next);
    RenderHead(xs[1..]);
    MatchesOne(xs[0], " " + next, next);
    WrittenMatchesCons(xs);
  }

  /** A rendering of carriable texts does not start with whitespace. */
  lemma RenderHead(xs: seq<Written>)
    requires |xs| > 0 && Carriable(xs[0].text)
    ensures |Render(xs)| > 0 && !IsSpace(Render(xs)[0])
  {
    var e := EscapeColons(xs[0].text);
    assert Render(xs)[0] == e[0];
  }

  /** Text without colons is a single sub-prompt of default weight 1.0. */
  lemma {:induction false} NoColonSingleSubprompt(s: string)
    requires |s| > 0 && ':' !in s
    ensures SplitWeightedSubprompts(s, true) == [Subprompt(s, 1.0)]
  {
    NoColonPrompt(s);
    NoColonUnescape(s);
    assert s[..|s|] == s;
  }

  lemma {:induction false} NoColonPrompt(s: string)
    requires ':' !in s
    ensures PromptLength(s) == |s|
    decreases |s|
  {
    if |s| > 0 {
      if |s| >= 2 && s[0] == '\\' && s[1] == ':' {
        assert false;
      }
      NoColonPrompt(s[1..]);
    }
  }

  lemma {:induction false} NoColonUnescape(s: string)
    requires ':' !in s
    ensures UnescapeColons(s) == s
    decreases |s|
  {
    if |s| > 0 {
      NoColonUnescape(s[1..]);
      assert s == [s[0]] + s[1..];
    }
  }

  /** The example of the legacy format: `a:1 b:-1` has raw weights 1 and -1, which sum to
      zero, so normalisation falls back to equal weights of one half. */
  lemma ZeroSumExample()
    ensures SplitWeightedSubprompts("a:1 b:-1", false) == [Subprompt("a", 0.5), Subprompt("b", 0.5)]
  {
    ExampleParsed();
    ExampleNormalised();
  }

  lemma ExampleParsed()
    ensures Parsed("a:1 b:-1") == [Subprompt("a", 1.0), Subprompt("b", -1.0)]
  {
    var xs := [Written("a", "1"), Written("b", "-1")];
    ExampleRender(xs);
    ExampleWritable(xs);
    SplitRendered(xs);
    ExampleDecoded(xs);
  }

  lemma ExampleWritable(xs: seq<Written>)
    requires xs == [Written("a", "1"), Written("b", "-1")]
    ensures forall i :: 0 <= i < |xs| ==> Carriable(xs[i].text) && IsNumberText(xs[i].weight)
  {
    OneDigit();
    assert Carriable(xs[0].text) && Carriable(xs[1].text);
  }

  lemma ExampleDecoded(xs: seq<Written>)
    requires xs == [Written("a", "1"), Written("b", "-1")]
    ensures Decoded(xs) == [Subprompt("a", 1.0), Subprompt("b", -1.0)]
  {
    OneDigit();
    var d := Decoded(xs);
    assert d[0] == Subprompt("a", 1.0);
    assert d[1] == Subprompt("b", -1.0);
  }

  lemma ExampleRender(xs: seq<Written>)
    requires xs == [Written("a", "1"), Written("b", "-1")]
    ensures Render(xs) == "a:1 b:-1"
  {
    assert xs[1..] == [Written("b", "-1")];
    assert EscapeColons("a") == "a" by { assert "a"[1..] == ""; }
    assert EscapeColons("b") == "b" by { assert "b"[1..] == ""; }
    assert Render(xs[1..]) == "b:-1";
  }

  lemma ExampleNormalised()
    ensures Normalise([Subprompt("a", 1.0), Subprompt("b", -1.0)]) == [Subprompt("a", 0.5), Subprompt("b", 0.5)]
  {
    var parsed := [Subprompt("a", 1.0), Subprompt("b", -1.0)];
    assert WeightSum(parsed) == 0.0 by {
      assert parsed[..1] == [Subprompt("a", 1.0)];
      assert WeightSum(parsed[..1]) == 1.0;
    }
    var r := Normalise(parsed);
    assert |r| == |Texts(r)| == 2;
    assert r[0].text == Texts(r)[0] == "a";
    assert r[1].text == Texts(r)[1] == "b";
  }

  /** The texts `1` and `-1` are numbers of value 1 and -1. */
  lemma OneDigit()
    ensures IsNumberText("1") && NumberValue("1") == 1.0
    ensures IsNumberText("-1") && NumberValue("-1") == -1.0
  {
    assert "1"[1..] == "" && "1"[..1] == "1" && "1"[..0] == "";
    assert DigitRun("1") == 1;
    assert DigitsValue("1") == 1;
    assert "-1"[1..] == "1" && "-1"[2..] == "";
    assert NumberLength("-1") == 2;
  }

  // ----- get_blend_prompts_and_weights -----

  /** The sub-prompt texts and weights handed to the model. */
  datatype BlendRequest = BlendRequest(subprompts: seq<string>, weights: seq<real>)

  /** `get_blend_prompts_and_weights(prompt)`: the un-normalised sub-prompts unzipped into
      texts and weights, or `['']` with weight `[1]` when there are none. */
  function BlendPromptsAndWeights(prompt: string): (r: BlendRequest)
    ensures |r.subprompts| == |r.weights| >= 1
  {
    var subs := SplitWeightedSubprompts(prompt, true);
    if |subs| == 0 then BlendRequest([""], [1.0])
    else BlendRequest(Texts(subs), seq(|subs|, i requires 0 <= i < |subs| => subs[i].weight))
  }

  /** The request holds the parsed sub-prompts, texts and weights side by side, and falls
      back to the single empty prompt only when there are none. */
  lemma BlendRequestOfParsed(prompt: string)
    ensures var r := BlendPromptsAndWeights(prompt);
      (|Parsed(prompt)| == 0 ==> r == BlendRequest([""], [1.0])) &&
      (|Parsed(prompt)| > 0 ==> r.subprompts == Texts(Parsed(prompt)) && |r.weights| == |Parsed(prompt)|) &&
      (|Parsed(prompt)| > 0 ==> forall i :: 0 <= i < |r.weights| ==> r.weights[i] == Parsed(prompt)[i].weight)
  {
  }

  /** Empty text has no sub-prompts, so its request is the single empty prompt. */
  lemma EmptyTextRequest()
    ensures BlendPromptsAndWeights("") == BlendRequest([""], [1.0])
  {
    assert Matches("") == [];
  }
}
