/** Parse actions and the escaped-word lexical rule of the older prompt grammar. The
    grammar combinators themselves are not modelled; each action is a function of the
    tokens the grammar hands it. */
module PromptParserOld {
  import opened Wrappers
  import opened PyStrings
  import PromptParser

  /** A token of a grouped parse result: a string, a number or an already built node. */
  datatype Token = Str(s: string) | Num(value: real) | NodeTok(node: Node)

  /** The node classes the actions construct. Their definitions are not part of this file,
      so each constructor only records the arguments it is given. */
  datatype Node =
    | Fragment(text: string)
    | Attention(weight: real, children: seq<Token>)
    | Blend(prompts: seq<Token>, weights: seq<Token>, normalizeWeights: bool)
    | Conjunction(parts: seq<Token>, weights: seq<Token>)
    | Prompt(children: seq<Token>)

  /** Exceptions the actions can raise. */
  datatype Error = ParsingException | IndexError | AssertionError | TypeError

  // ----- the escaped-word lexer -----

  /** The escape literals `\c`, one per character of `chars`, in order. */
  function EscapeLiterals(chars: string): (r: seq<string>)
    ensures |r| == |chars|
    ensures forall i :: 0 <= i < |chars| ==> r[i] == ['\\', chars[i]]
  {
    seq(|chars|, i requires 0 <= i < |chars| => ['\\', chars[i]])
  }

  /** The loop of `build_escaped_word_parser_charbychar` that collects the escapes. */
  method BuildEscapes(chars: string) returns (escapes: seq<string>)
    ensures escapes == EscapeLiterals(chars)
  {
    escapes := [];
    for i := 0 to |chars|
      invariant escapes == EscapeLiterals(chars[..i])
    {
      escapes := escapes + [['\\', chars[i]]];
    }
    assert chars[..|chars|] == chars;
  }

  /** Length of the first literal of `lits` that starts `s` (`MatchFirst` over literals),
      0 when none does. */
  function MatchLiteral(lits: seq<string>, s: string): (r: nat)
    ensures r > 0 ==> r <= |s| && s[..r] in lits
    decreases |lits|
  {
    if |lits| == 0 then 0
    else if |lits[0]| > 0 && lits[0] <= s then assert s[..|lits[0]|] == lits[0]; |lits[0]|
    else MatchLiteral(lits[1..], s)
  }

  /** No literal matches exactly when no non-empty literal of `lits` starts `s`. */
  lemma {:induction false} MatchLiteralMisses(lits: seq<string>, s: string)
    ensures MatchLiteral(lits, s) == 0 <==> forall i :: 0 <= i < |lits| ==> |lits[i]| == 0 || !(lits[i] <= s)
    decreases |lits|
  {
    if |lits| > 0 {
      MatchLiteralMisses(lits[1..], s);
      assert forall i :: 1 <= i < |lits| ==> lits[i] == lits[1..][i - 1];
    }
  }

  /** Trying the escapes in order amounts to: a backslash followed by one of `chars`. */
  lemma {:induction false} MatchEscapes(chars: string, s: string)
    ensures MatchLiteral(EscapeLiterals(chars), s) ==
      (if |s| >= 2 && s[0] == '\\' && s[1] in chars then 2 else 0)
    decreases |chars|
  {
    if |chars| > 0 {
      assert EscapeLiterals(chars)[1..] == EscapeLiterals(chars[1..]);
      MatchEscapes(chars[1..], s);
      assert chars == [chars[0]] + chars[1..];
      if |s| >= 2 {
        assert (['\\', chars[0]] <= s) <==> (s[0] == '\\' && s[1] == chars[0]);
      }
    }
  }

  /** Length of one unit at the start of `s`: an escape, or one character that is neither
      whitespace nor in `chars`; 0 when neither matches. */
  function UnitLength(chars: string, s: string): (n: nat)
    ensures n <= |s|
  {
    var e := MatchLiteral(EscapeLiterals(chars), s);
    MatchEscapes(chars, s);
    if e > 0 then e
    else if |s| > 0 && !IsStringWhitespace(s[0]) && s[0] !in chars then 1
    else 0
  }

  /** Length consumed by `OneOrMore` of units (greedy, no backtracking). */
  function WordLength(chars: string, s: string): (n: nat)
    ensures n <= |s|
    ensures UnitLength(chars, s[n..]) == 0
    decreases |s|
  {
    var u := UnitLength(chars, s);
    if u == 0 then 0
    else
      var m := WordLength(chars, s[u..]);
      assert s[u..][m..] == s[u + m..];
      u + m
  }

  /** The escaped-word rule: the longest run of units at the start of `s`, kept verbatim
      (backslashes included); no match when the first unit fails. */
  function LexEscapedWord(chars: string, s: string): (r: Option<string>)
    ensures r.Some? <==> UnitLength(chars, s) > 0
    ensures r.Some? ==> 0 < |r.value| <= |s| && r.value == s[..|r.value|]
    ensures r.Some? ==> UnitLength(chars, s[|r.value|..]) == 0
  {
    var n := WordLength(chars, s);
    if n == 0 then None else Some(s[..n])
  }

  /** Within a matched word every character of `chars` is escaped by the backslash just before
      it, and the word stops only at whitespace, at an unescaped character of `chars`, or at
      the end of the input. */
  lemma {:induction false} WordUnits(chars: string, s: string)
    requires '\\' !in chars
    ensures forall i :: 0 <= i < WordLength(chars, s) && s[i] in chars ==> i > 0 && s[i - 1] == '\\'
    ensures WordLength(chars, s) < |s| ==>
      IsStringWhitespace(s[WordLength(chars, s)]) || s[WordLength(chars, s)] in chars
    decreases |s|
  {
    var u := UnitLength(chars, s);
    MatchEscapes(chars, s);
    if u > 0 {
      var t := s[u..];
      WordUnits(chars, t);
      forall i | 0 <= i < WordLength(chars, s) && s[i] in chars
        ensures i > 0 && s[i - 1] == '\\'
      {
        if i >= u {
          assert t[i - u] == s[i];
        }
      }
      if WordLength(chars, s) < |s| {
        assert s[WordLength(chars, s)] == t[WordLength(chars, t)];
      }
    }
  }

  /** With no whitespace among `chars`, a matched word contains no whitespace. */
  lemma {:induction false} WordHasNoWhitespace(chars: string, s: string)
    requires forall i :: 0 <= i < |chars| ==> !IsStringWhitespace(chars[i])
    ensures forall i :: 0 <= i < WordLength(chars, s) ==> !IsStringWhitespace(s[i])
    decreases |s|
  {
    var u := UnitLength(chars, s);
    MatchEscapes(chars, s);
    if u > 0 {
      var t := s[u..];
      WordHasNoWhitespace(chars, t);
      forall i | 0 <= i < WordLength(chars, s) ensures !IsStringWhitespace(s[i]) {
        if i >= u {
          assert t[i - u] == s[i];
        } else if u == 2 && i == 1 {
          assert s[1] in chars;
        }
      }
    }
  }

  /** A word of ordinary characters followed by whitespace or the end is matched whole. */
  lemma {:induction false} PlainWordMatchesWhole(chars: string, w: string, rest: string)
    requires |w| > 0
    requires forall i :: 0 <= i < |w| ==> !IsStringWhitespace(w[i]) && w[i] !in chars && w[i] != '\\'
    requires |rest| == 0 || IsStringWhitespace(rest[0])
    ensures LexEscapedWord(chars, w + rest) == Some(w)
  {
    PlainWordLength(chars, w, rest);
    assert (w + rest)[..|w|] == w;
  }

  lemma {:induction false} PlainWordLength(chars: string, w: string, rest: string)
    requires forall i :: 0 <= i < |w| ==> !IsStringWhitespace(w[i]) && w[i] !in chars && w[i] != '\\'
    requires |rest| == 0 || IsStringWhitespace(rest[0])
    ensures WordLength(chars, w + rest) == |w|
    decreases |w|
  {
    var s := w + rest;
    MatchEscapes(chars, s);
    if |w| == 0 {
      assert s == rest;
    } else {
      assert s[1..] == w[1..] + rest;
      PlainWordLength(chars, w[1..], rest);
    }
  }

  // ----- parse actions -----

  /** The argument kinds `make_text_fragment` distinguishes. */
  datatype TextArg = StrArg(s: string) | ListArg(items: seq<Token>) | OtherSeqArg(items: seq<Token>)

  /** The `type(x[0]) is Fragment` test. */
  predicate StartsWithFragment(items: seq<Token>)
  {
    |items| > 0 && items[0].NodeTok? && items[0].node.Fragment?
  }

  predicate AllStr(items: seq<Token>)
  {
    forall i :: 0 <= i < |items| ==> items[i].Str?
  }

  function Strs(items: seq<Token>): seq<string>
    requires AllStr(items)
  {
    seq(|items|, i requires 0 <= i < |items| => items[i].s)
  }

  /** `make_text_fragment`: a string becomes a fragment, a token list of strings becomes one
      fragment joined by single spaces, anything else raises `ParsingException`. Its first
      element is inspected first, so an empty argument raises `IndexError` and one starting
      with a fragment fails the assertion. */
  function MakeTextFragment(x: TextArg): (r: Result<Node, Error>)
    ensures r.Ok? <==> (x.StrArg? && |x.s| > 0) || (x.ListArg? && |x.items| > 0 && AllStr(x.items))
    ensures x.StrArg? && |x.s| > 0 ==> r == Ok(Fragment(x.s))
    ensures x.ListArg? && |x.items| > 0 && AllStr(x.items) ==> r == Ok(Fragment(Join(" ", Strs(x.items))))
    ensures !x.StrArg? && |x.items| == 0 ==> r == Err(IndexError)
    ensures !x.StrArg? && StartsWithFragment(x.items) ==> r == Err(AssertionError)
    ensures x.OtherSeqArg? && |x.items| > 0 && !StartsWithFragment(x.items) ==> r == Err(ParsingException)
    ensures x.StrArg? && |x.s| == 0 ==> r == Err(IndexError)
    ensures x.ListArg? && |x.items| > 0 && !StartsWithFragment(x.items) && !AllStr(x.items) ==> r == Err(TypeError)
  {
    match x
    case StrArg(s) =>
      if |s| == 0 then Err(IndexError) else Ok(Fragment(s))
    case ListArg(items) =>
      if |items| == 0 then Err(IndexError)
      else if StartsWithFragment(items) then Err(AssertionError)
      else if !AllStr(items) then Err(TypeError)
      else Ok(Fragment(Join(" ", Strs(items))))
    case OtherSeqArg(items) =>
      if |items| == 0 then Err(IndexError)
      else if StartsWithFragment(items) then Err(AssertionError)
      else Err(ParsingException)
  }

  /** Words without spaces joined into a fragment can be split back into the same words. */
  lemma TextFragmentSplitsBack(words: seq<string>)
    requires |words| > 0
    requires forall i :: 0 <= i < |words| ==> ' ' !in words[i]
    ensures MakeTextFragment(ListArg(seq(|words|, i requires 0 <= i < |words| => Str(words[i])))).Ok?
    ensures Split(' ', MakeTextFragment(ListArg(seq(|words|, i requires 0 <= i < |words| => Str(words[i])))).value.text) == words
  {
    var items := seq(|words|, i requires 0 <= i < |words| => Str(words[i]));
    assert Strs(items) == words;
    SplitJoin(' ', words);
  }

  /** `s.replace('"', '\\"')`: every double quote gets a backslash in front. */
  function EscapeQuotes(s: string): (r: string)
    ensures |r| == |s| + Count('"', s)
    decreases |s|
  {
    if |s| == 0 then ""
    else (if s[0] == '"' then ['\\', '"'] else [s[0]]) + EscapeQuotes(s[1..])
  }

  /** What the quoted-string rule does to the escaped quote `\"` in its content: each
      occurrence, scanning left to right, becomes `"`. */
  function UnescapeQuotes(s: string): (r: string)
    ensures |r| <= |s|
    ensures '"' !in s ==> r == s
    decreases |s|
  {
    if |s| >= 2 && s[0] == '\\' && s[1] == '"' then ['"'] + UnescapeQuotes(s[2..])
    else if |s| == 0 then ""
    else [s[0]] + UnescapeQuotes(s[1..])
  }

  /** Escaping the quotes of a quoted fragment's content and reading it back as a quoted string
      gives the content back unchanged. */
  lemma {:induction false} QuoteEscapingRoundTrip(s: string)
    ensures UnescapeQuotes(EscapeQuotes(s)) == s
    decreases |s|
  {
    if |s| > 0 {
      QuoteEscapingRoundTrip(s[1..]);
      var rest := EscapeQuotes(s[1..]);
      if s[0] == '"' {
        assert (['\\', '"'] + rest)[2..] == rest;
      } else {
        assert ([s[0]] + rest)[1..] == rest;
        if s[0] == '\\' && |rest| > 0 {
          EscapeQuotesHead(s[1..]);
        }
      }
      assert s == [s[0]] + s[1..];
    }
  }

  /** An escaped text never starts with a bare double quote. */
  lemma EscapeQuotesHead(s: string)
    requires |s| > 0
    ensures EscapeQuotes(s)[0] != '"'
  {
  }

  /** What `parse_fragment_str` does before handing the text to the grammar. */
  datatype FragmentStep = Done(node: Node) | ParseText(text: string)

  /** `parse_fragment_str`: whitespace-only text is the empty fragment; otherwise, inside
      quotes, every `"` is escaped before parsing. */
  function ParseFragmentStr(s: string, inQuotes: bool, inParens: bool): (r: FragmentStep)
    ensures IsBlank(s) <==> r == Done(Fragment(""))
    ensures !IsBlank(s) ==> r == ParseText(if inQuotes then EscapeQuotes(s) else s)
  {
    if IsBlank(s) then Done(Fragment(""))
    else ParseText(if inQuotes then EscapeQuotes(s) else s)
  }

  /** Python's `s[1:-1]`. */
  function Interior(s: string): (r: string)
    ensures |s| >= 2 ==> r == s[1..|s| - 1]
    ensures |s| < 2 ==> r == ""
  {
    if |s| < 2 then "" else s[1..|s| - 1]
  }

  /** `make_prompt_from_quoted_string`: the quotes are dropped; a blank interior gives
      `Prompt([Fragment('')])`, anything else is parsed as a prompt. */
  function MakePromptFromQuotedString(quoted: string): (r: FragmentStep)
    ensures IsBlank(Interior(quoted)) <==> r == Done(Prompt([NodeTok(Fragment(""))]))
    ensures !IsBlank(Interior(quoted)) ==> r == ParseText(Interior(quoted))
  {
    var inner := Interior(quoted);
    if IsBlank(inner) then Done(Prompt([NodeTok(Fragment(""))])) else ParseText(inner)
  }

  /** The interior of `"t"` is `t`. */
  lemma QuotedInterior(t: string)
    ensures Interior("\"" + t + "\"") == t
  {
    assert ("\"" + t + "\"")[1..|t| + 1] == t;
  }

  /** `empty_string`: whatever the suppressed `()`, `""` or `("")` produced, the result is the
      empty fragment. */
  function EmptyStringAction(tokens: seq<Token>): (r: Node)
    ensures r.Fragment? && |r.text| == 0
  {
    Fragment("")
  }

  /** A child as `make_attention` stores it: strings become fragments. */
  function WrapChild(t: Token): (r: Token)
    ensures !r.Str?
    ensures t.Str? ==> r.NodeTok? && r.node.Fragment? && r.node.text == t.s
    ensures !t.Str? ==> r == t
  {
    if t.Str? then NodeTok(Fragment(t.s)) else t
  }

  /** The weight `make_attention` derives from the foot of an attention group. */
  function FootWeight(foot: Token, plusBase: real, minusBase: real): (r: Result<real, Error>)
    ensures r.Err? <==> foot.Str? && |foot.s| == 0
    ensures r.Err? ==> r.error == IndexError
    ensures foot.Num? ==> r == Ok(foot.value)
    ensures foot.Str? && IsRunOf('+', foot.s) ==> r == Ok(Pow(plusBase, |foot.s|))
    ensures foot.Str? && IsRunOf('-', foot.s) ==> r == Ok(Pow(minusBase, |foot.s|))
    ensures foot.NodeTok? ==> r == Ok(1.0)
  {
    match foot
    case Num(v) => Ok(v)
    case Str(s) =>
      if |s| == 0 then Err(IndexError)
      else Ok(Pow(if s[0] == '+' then plusBase else minusBase, |s|))
    case NodeTok(_) => Ok(1.0)
  }

  /** `make_attention`: the last token is the foot (a number is the weight, a run of n signs
      gives base^n for the base its first sign selects); the others are the children, strings
      wrapped as fragments and other children kept, in order. */
  function MakeAttention(group: seq<Token>, plusBase: real, minusBase: real): (r: Result<Node, Error>)
    ensures |group| == 0 ==> r == Err(IndexError)
    ensures |group| > 0 && group[|group| - 1].Num? ==> r.Ok? && r.value.Attention? && r.value.weight == group[|group| - 1].value
    ensures |group| > 0 && group[|group| - 1].Str? && IsRunOf('+', group[|group| - 1].s) ==>
      r.Ok? && r.value.Attention? && r.value.weight == Pow(plusBase, |group[|group| - 1].s|)
    ensures |group| > 0 && group[|group| - 1].Str? && IsRunOf('-', group[|group| - 1].s) ==>
      r.Ok? && r.value.Attention? && r.value.weight == Pow(minusBase, |group[|group| - 1].s|)
    ensures r.Ok? ==> r.value.Attention? && |r.value.children| == |group| - 1
    ensures r.Ok? ==> forall i :: 0 <= i < |group| - 1 ==> r.value.children[i] == WrapChild(group[i])
  {
    if |group| == 0 then Err(IndexError)
    else
      var w := FootWeight(group[|group| - 1], plusBase, minusBase);
      if w.Err? then Err(w.error)
      else Ok(Attention(w.value, seq(|group| - 1, i requires 0 <= i < |group| - 1 => WrapChild(group[i]))))
  }

  /** A non-empty run of one character. */
  predicate IsRunOf(c: char, s: string)
  {
    |s| > 0 && forall i :: 0 <= i < |s| ==> s[i] == c
  }

  /** With the default bases 1.1 and 0.9, a word with a sign foot gets the same weight as the
      current grammar's sign-run action gives the same word. */
  lemma SignWeightsAgreeWithCurrentParser(word: string, run: string)
    requires IsRunOf('+', run) || IsRunOf('-', run)
    ensures MakeAttention([Str(word), Str(run)], PromptParser.PlusBase, PromptParser.MinusBase).Ok?
    ensures IsRunOf('+', run) ==>
      MakeAttention([Str(word), Str(run)], PromptParser.PlusBase, PromptParser.MinusBase).value ==
      Attention(PromptParser.PlusAttention([PromptParser.Text(run), PromptParser.Text(word)]).weight, [NodeTok(Fragment(word))])
    ensures IsRunOf('-', run) ==>
      MakeAttention([Str(word), Str(run)], PromptParser.PlusBase, PromptParser.MinusBase).value ==
      Attention(PromptParser.MinusAttention([PromptParser.Text(run), PromptParser.Text(word)]).weight, [NodeTok(Fragment(word))])
  {
    var r := MakeAttention([Str(word), Str(run)], PromptParser.PlusBase, PromptParser.MinusBase);
    assert r.value.children == [NodeTok(Fragment(word))];
    assert PromptParser.IsRunOf('+', run) <==> IsRunOf('+', run);
    assert PromptParser.IsRunOf('-', run) <==> IsRunOf('-', run);
  }

  /** `make_blend`: a trailing `no_normalize` token is removed and turns normalisation off;
      otherwise normalisation is on and the weights are kept as given. */
  function MakeBlend(prompts: seq<Token>, weights: seq<Token>): (r: Result<Node, Error>)
    ensures |weights| == 0 <==> r == Err(IndexError)
    ensures |weights| > 0 && weights[|weights| - 1] == Str("no_normalize") ==>
      r == Ok(Blend(prompts, weights[..|weights| - 1], false))
    ensures |weights| > 0 && weights[|weights| - 1] != Str("no_normalize") ==>
      r == Ok(Blend(prompts, weights, true))
  {
    if |weights| == 0 then Err(IndexError)
    else if weights[|weights| - 1] == Str("no_normalize") then Ok(Blend(prompts, weights[..|weights| - 1], false))
    else Ok(Blend(prompts, weights, true))
  }

  /** Adding the flag to a list of numeric weights changes only the normalisation switch. */
  lemma NoNormalizeOnlyFlips(prompts: seq<Token>, weights: seq<Token>)
    requires |weights| > 0
    requires forall i :: 0 <= i < |weights| ==> weights[i].Num?
    ensures MakeBlend(prompts, weights + [Str("no_normalize")]).Ok? && MakeBlend(prompts, weights).Ok?
    ensures MakeBlend(prompts, weights + [Str("no_normalize")]).value ==
      MakeBlend(prompts, weights).value.(normalizeWeights := false)
    ensures MakeBlend(prompts, weights).value.normalizeWeights
  {
    assert (weights + [Str("no_normalize")])[..|weights|] == weights;
    assert weights[|weights| - 1] != Str("no_normalize");
  }

  /** `make_conjunction`: without a weights group every part gets weight 1.0. */
  function MakeConjunction(parts: seq<Token>, weights: Option<seq<Token>>): (r: Node)
    ensures r.Conjunction? && r.parts == parts
    ensures weights.Some? ==> r.weights == weights.value
    ensures weights.None? ==> |r.weights| == |parts| && forall i :: 0 <= i < |parts| ==> r.weights[i] == Num(1.0)
  {
    Conjunction(parts, if weights.Some? then weights.value else seq(|parts|, _ => Num(1.0)))
  }
}
