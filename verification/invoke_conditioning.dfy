/** `get_uc_and_c` of ldm/invoke/conditioning.py: the bracketed words become the negative
    conditioning; legacy colon weights in the rest are rewritten into the `.blend(...)` syntax
    before the prompt parser reads it; every part of the parsed conjunction becomes one
    positive conditioning request of weight 1. The model's embedding calls are represented by
    the requests they are given. */
module InvokeConditioning {
  import opened Wrappers
  import opened PyStrings
  import opened WeightedSubprompts
  import opened UnconditionedWords

  // ----- rewriting legacy weights into the blend syntax -----

  /** `'"' + text + '"'`. */
  function Quote(t: string): string
  {
    "\"" + t + "\""
  }

  function QuotedTexts(subs: seq<Subprompt>): seq<string>
  {
    seq(|subs|, i requires 0 <= i < |subs| => Quote(subs[i].text))
  }

  function RenderedWeights(subs: seq<Subprompt>, render: real -> string): seq<string>
  {
    seq(|subs|, i requires 0 <= i < |subs| => render(subs[i].weight))
  }

  /** The rewrite applied when there is more than one sub-prompt: `("a", "b").blend(w1, w2)`.
      `render` stands for Python's `str` on floats. */
  function BlendRewrite(cleaned: string, subs: seq<Subprompt>, render: real -> string): (r: string)
    ensures |subs| <= 1 ==> r == cleaned
    ensures |subs| > 1 ==> |r| > 0 && r[0] == '(' && r[|r| - 1] == ')'
  {
    if |subs| > 1 then
      "(" + Join(", ", QuotedTexts(subs)) + ").blend(" + Join(", ", RenderedWeights(subs, render)) + ")"
    else cleaned
  }

  /** Index of the first `c` in `s`. */
  function IndexOf(c: char, s: string): (r: Option<nat>)
    ensures r.Some? ==> r.value < |s| && s[r.value] == c && c !in s[..r.value]
    ensures r.None? ==> c !in s
    decreases |s|
  {
    if |s| == 0 then None
    else if s[0] == c then Some(0)
    else
      match IndexOf(c, s[1..])
      case None => None
      case Some(k) =>
        assert s[..k + 1] == [s[0]] + s[1..][..k];
        Some(k + 1)
  }

  /** The double-quoted strings of `s`, read left to right; an unclosed quote ends the
      reading. This is how the blend syntax delimits its prompts. */
  function QuotedStrings(s: string): seq<string>
    decreases |s|
  {
    if |s| == 0 then []
    else if s[0] == '"' then
      match IndexOf('"', s[1..])
      case None => []
      case Some(k) => [s[1..k + 1]] + QuotedStrings(s[k + 2..])
    else QuotedStrings(s[1..])
  }

  lemma {:induction false} QuotedSkipsPlain(p: string, rest: string)
    requires '"' !in p
    ensures QuotedStrings(p + rest) == QuotedStrings(rest)
    decreases |p|
  {
    if |p| == 0 {
      assert p + rest == rest;
    } else {
      assert (p + rest)[0] == p[0];
      assert (p + rest)[1..] == p[1..] + rest;
      QuotedSkipsPlain(p[1..], rest);
    }
  }

  lemma {:induction false} IndexOfFirst(c: char, a: string, b: string)
    requires c !in a
    ensures IndexOf(c, a + [c] + b) == Some(|a|)
    decreases |a|
  {
    var s := a + [c] + b;
    if |a| == 0 {
      assert s[0] == c;
    } else {
      assert s[0] == a[0];
      assert s[1..] == a[1..] + [c] + b;
      IndexOfFirst(c, a[1..], b);
    }
  }

  lemma QuotedReadsQuote(t: string, rest: string)
    requires '"' !in t
    ensures QuotedStrings(Quote(t) + rest) == [t] + QuotedStrings(rest)
  {
    var s := Quote(t) + rest;
    assert s[1..] == t + ['"'] + rest;
    IndexOfFirst('"', t, rest);
    assert s[1..|t| + 1] == t;
    assert s[|t| + 2..] == rest;
  }

  /** The quoted texts separated by `, `, followed by `rest`. */
  function JoinedQuotes(ts: seq<string>, rest: string): string
    requires |ts| > 0
    decreases |ts|
  {
    if |ts| == 1 then Quote(ts[0]) + rest else Quote(ts[0]) + (", " + JoinedQuotes(ts[1..], rest))
  }

  lemma {:induction false} JoinedQuotesIsJoin(ts: seq<string>, rest: string)
    requires |ts| > 0
    ensures Join(", ", QuotedOf(ts)) + rest == JoinedQuotes(ts, rest)
    decreases |ts|
  {
    if |ts| > 1 {
      JoinedQuotesIsJoin(ts[1..], rest);
      QuotedOfCons(ts);
      ConcatAssoc(Quote(ts[0]), Join(", ", QuotedOf(ts[1..])), rest);
    }
  }

  lemma QuotedOfCons(ts: seq<string>)
    requires |ts| > 1
    ensures Join(", ", QuotedOf(ts)) == Quote(ts[0]) + ", " + Join(", ", QuotedOf(ts[1..]))
  {
    assert QuotedOf(ts)[1..] == QuotedOf(ts[1..]);
  }

  lemma ConcatAssoc(a: string, j: string, rest: string)
    ensures (a + ", " + j) + rest == a + (", " + (j + rest))
  {
  }

  lemma {:induction false} QuotedReadsJoin(ts: seq<string>, rest: string)
    requires |ts| > 0 && forall i :: 0 <= i < |ts| ==> '"' !in ts[i]
    ensures QuotedStrings(JoinedQuotes(ts, rest)) == ts + QuotedStrings(rest)
    decreases |ts|
  {
    if |ts| == 1 {
      QuotedReadsQuote(ts[0], rest);
      assert ts == [ts[0]];
    } else {
      QuotedReadsJoin(ts[1..], rest);
      QuotedThenComma(ts[0], JoinedQuotes(ts[1..], rest));
      assert [ts[0]] + (ts[1..] + QuotedStrings(rest)) == ts + QuotedStrings(rest);
    }
  }

  lemma QuotedThenComma(t: string, tail: string)
    requires '"' !in t
    ensures QuotedStrings(Quote(t) + (", " + tail)) == [t] + QuotedStrings(tail)
  {
    QuotedReadsQuote(t, ", " + tail);
    QuotedSkipsPlain(", ", tail);
  }

  function QuotedOf(ts: seq<string>): seq<string>
  {
    seq(|ts|, i requires 0 <= i < |ts| => Quote(ts[i]))
  }

  /** The rewritten prompt carries every sub-prompt text as a quoted string, in order, and
      nothing else in quotes, as long as no text and no rendered weight holds a `"`. */
  lemma RewriteCarriesTexts(cleaned: string, subs: seq<Subprompt>, render: real -> string)
    requires |subs| > 1
    requires forall i :: 0 <= i < |subs| ==> '"' !in subs[i].text && '"' !in render(subs[i].weight)
    ensures QuotedStrings(BlendRewrite(cleaned, subs, render)) == Texts(subs)
  {
    var ts := Texts(subs);
    assert QuotedTexts(subs) == QuotedOf(ts);
    var ws := RenderedWeights(subs, render);
    NoCharInJoin('"', ", ", ws);
    RewriteShape(Join(", ", QuotedOf(ts)), Join(", ", ws), ts);
  }

  lemma RewriteShape(quoted: string, weights: string, ts: seq<string>)
    requires |ts| > 0 && forall i :: 0 <= i < |ts| ==> '"' !in ts[i]
    requires quoted == Join(", ", QuotedOf(ts)) && '"' !in weights
    ensures QuotedStrings("(" + quoted + ").blend(" + weights + ")") == ts
  {
    var rest := ").blend(" + weights + ")";
    assert "(" + quoted + ").blend(" + weights + ")" == "(" + (quoted + rest);
    NoQuotedStrings(rest);
    calc {
      QuotedStrings("(" + (quoted + rest));
      { QuotedSkipsPlain("(", quoted + rest); }
      QuotedStrings(quoted + rest);
      { JoinedQuotesIsJoin(ts, rest); QuotedReadsJoin(ts, rest); }
      ts + QuotedStrings(rest);
      ts + [];
      ts;
    }
  }

  lemma NoQuotedStrings(p: string)
    requires '"' !in p
    ensures QuotedStrings(p) == []
  {
    QuotedSkipsPlain(p, "");
    assert p + "" == p;
  }

  /** The text after the last `c` of `s` (all of `s` when it holds no `c`): how the
      arguments of the final call of the rewritten prompt are found. */
  function AfterLast(c: char, s: string): string
    decreases |s|
  {
    if |s| == 0 then ""
    else if s[|s| - 1] == c then ""
    else AfterLast(c, s[..|s| - 1]) + [s[|s| - 1]]
  }

  lemma {:induction false} AfterLastOf(c: char, a: string, b: string)
    requires c !in b
    ensures AfterLast(c, a + [c] + b) == b
    decreases |b|
  {
    var s := a + [c] + b;
    if |b| > 0 {
      var n := |b| - 1;
      assert s[|s| - 1] == b[n];
      assert s[..|s| - 1] == a + [c] + b[..n];
      AfterLastOf(c, a, b[..n]);
      assert b[..n] + [b[n]] == b;
    }
  }

  /** The rewritten prompt carries every rendered weight, in order, as the comma-separated
      arguments of its final `.blend(...)`, as long as no rendered weight holds a `(` or a
      `,` or starts with a space (Python's `str` of a float does none of these). */
  lemma RewriteCarriesWeights(cleaned: string, subs: seq<Subprompt>, render: real -> string)
    requires |subs| > 1
    requires forall i :: 0 <= i < |subs| ==>
      '(' !in render(subs[i].weight) && ',' !in render(subs[i].weight) &&
      (|render(subs[i].weight)| == 0 || render(subs[i].weight)[0] != ' ')
    ensures var r := BlendRewrite(cleaned, subs, render);
      |r| > 0 && ReadList(AfterLast('(', r[..|r| - 1])) == RenderedWeights(subs, render)
  {
    var ws := RenderedWeights(subs, render);
    var head := "(" + Join(", ", QuotedTexts(subs)) + ").blend";
    var jw := Join(", ", ws);
    var r := BlendRewrite(cleaned, subs, render);
    assert r == head + ['('] + jw + ")";
    assert r[..|r| - 1] == head + ['('] + jw;
    NoCharInJoin('(', ", ", ws);
    AfterLastOf('(', head, jw);
    ReadListJoin(ws);
  }

  // ----- the positive conditioning list -----

  /** A fragment of a flattened prompt and its attention weight. */
  datatype WeightedFragment = WeightedFragment(text: string, weight: real)

  /** A part of the parsed conjunction: a flattened prompt, a blend of parts, or anything else
      the parser produced. */
  datatype Part = Flattened(children: seq<WeightedFragment>) | BlendOf(prompts: seq<Part>, weights: seq<real>) | OtherPart

  /** What the model is asked for: embeddings of fragments with attention weights, or a blend
      of such embeddings. */
  datatype Request = Embed(fragments: seq<string>, weights: seq<real>) | Blended(requests: seq<Request>, weights: seq<real>)

  /** `make_embeddings_for_flattened_prompt` refuses anything but a flattened prompt. Its
      `raise` names a string rather than an exception, so what Python actually raises is a
      TypeError ("exceptions must derive from BaseException"); NotFlattened stands for it. */
  datatype ConditioningError = NotFlattened

  function Fragments(cs: seq<WeightedFragment>): seq<string>
  {
    seq(|cs|, i requires 0 <= i < |cs| => cs[i].text)
  }

  function Weights(cs: seq<WeightedFragment>): seq<real>
  {
    seq(|cs|, i requires 0 <= i < |cs| => cs[i].weight)
  }

  /** `make_embeddings_for_flattened_prompt`: the fragments and the attention weights unzipped. */
  function EmbeddingsFor(p: Part): (r: Result<Request, ConditioningError>)
    ensures r.Ok? <==> p.Flattened?
    ensures r.Ok? ==> r.value.Embed? && |r.value.fragments| == |r.value.weights| == |p.children|
  {
    if p.Flattened? then Ok(Embed(Fragments(p.children), Weights(p.children))) else Err(NotFlattened)
  }

  /** Zipping the request's fragments and weights back gives the flattened prompt. */
  lemma EmbeddingsUnzip(p: Part)
    requires p.Flattened?
    ensures var e := EmbeddingsFor(p).value;
      seq(|e.fragments|, i requires 0 <= i < |e.fragments| => WeightedFragment(e.fragments[i], e.weights[i])) == p.children
  {
  }

  predicate AllFlattened(ps: seq<Part>)
  {
    forall i :: 0 <= i < |ps| ==> ps[i].Flattened?
  }

  /** A part the loop can handle: a flattened prompt, or a blend of flattened prompts. */
  predicate Usable(p: Part)
  {
    p.Flattened? || (p.BlendOf? && AllFlattened(p.prompts))
  }

  /** The request one part of the conjunction produces. */
  function RequestFor(p: Part): Request
    requires Usable(p)
  {
    if p.Flattened? then EmbeddingsFor(p).value
    else Blended(seq(|p.prompts|, i requires 0 <= i < |p.prompts| => EmbeddingsFor(p.prompts[i]).value), p.weights)
  }

  /** The blend loop: one embedding request per child of the blend, in order. */
  method BlendRequests(b: Part) returns (r: Result<seq<Request>, ConditioningError>)
    requires b.BlendOf?
    ensures r.Ok? <==> AllFlattened(b.prompts)
    ensures r.Ok? ==> |r.value| == |b.prompts|
    ensures r.Ok? ==> forall i :: 0 <= i < |b.prompts| ==> r.value[i] == EmbeddingsFor(b.prompts[i]).value
  {
    var embeddings: seq<Request> := [];
    for i := 0 to |b.prompts|
      invariant AllFlattened(b.prompts[..i])
      invariant |embeddings| == i
      invariant forall j :: 0 <= j < i ==> embeddings[j] == EmbeddingsFor(b.prompts[j]).value
    {
      var e := EmbeddingsFor(b.prompts[i]);
      if e.Err? {
        assert !b.prompts[i].Flattened?;
        return Err(e.error);
      }
      embeddings := embeddings + [e.value];
    }
    assert b.prompts[..|b.prompts|] == b.prompts;
    return Ok(embeddings);
  }

  /** The loop over the conjunction's parts: `(request, 1.0)` per part, in order, or the
      error of the first part that is neither flattened nor a blend of flattened prompts. */
  method PositiveConditioning(parts: seq<Part>) returns (r: Result<seq<(Request, real)>, ConditioningError>)
    ensures r.Ok? <==> forall i :: 0 <= i < |parts| ==> Usable(parts[i])
    ensures r.Ok? ==> |r.value| == |parts|
    ensures r.Ok? ==> forall i :: 0 <= i < |parts| ==> r.value[i] == (RequestFor(parts[i]), 1.0)
  {
    var list: seq<(Request, real)> := [];
    for i := 0 to |parts|
      invariant forall j :: 0 <= j < i ==> Usable(parts[j])
      invariant |list| == i
      invariant forall j :: 0 <= j < i ==> list[j] == (RequestFor(parts[j]), 1.0)
    {
      var part := parts[i];
      if part.BlendOf? {
        var embeddings := BlendRequests(part);
        if embeddings.Err? {
          return Err(embeddings.error);
        }
        assert embeddings.value == seq(|part.prompts|, k requires 0 <= k < |part.prompts| => EmbeddingsFor(part.prompts[k]).value);
        list := list + [(Blended(embeddings.value, part.weights), 1.0)];
      } else {
        var e := EmbeddingsFor(part);
        if e.Err? {
          return Err(e.error);
        }
        list := list + [(e.value, 1.0)];
      }
    }
    return Ok(list);
  }

  // ----- get_uc_and_c -----

  /** The prompt text handed to the prompt parser: brackets removed, then legacy weights
      rewritten into the blend syntax when there is more than one sub-prompt. */
  function PositivePromptText(prompt: string, render: real -> string): string
  {
    var cleaned := CleanPrompt(prompt).prompt;
    BlendRewrite(cleaned, SplitWeightedSubprompts(cleaned, true), render)
  }

  /** `get_uc_and_c(prompt, model)`. `parse` stands for `PromptParser().parse`, whose grammar
      is not part of this model, reduced to the parts of the conjunction it returns. The
      positive loop runs first: when it raises, no negative conditioning is computed and
      nothing is returned. On success the result is the pair `(uc, c)`. */
  method GetUcAndC(prompt: string, parse: string -> seq<Part>, render: real -> string)
    returns (r: Result<(BlendRequest, seq<(Request, real)>), ConditioningError>)
    ensures r.Ok? <==> forall i :: 0 <= i < |parse(PositivePromptText(prompt, render))| ==>
      Usable(parse(PositivePromptText(prompt, render))[i])
    ensures r.Err? ==> r.error == NotFlattened
    ensures r.Ok? ==> r.value.0 == BlendPromptsAndWeights(CleanPrompt(prompt).unconditionedWords)
    ensures r.Ok? ==> var parts := parse(PositivePromptText(prompt, render));
      |r.value.1| == |parts| && forall i :: 0 <= i < |parts| ==> r.value.1[i] == (RequestFor(parts[i]), 1.0)
  {
    var cleaned := CleanPrompt(prompt);
    var promptStringCleaned := cleaned.prompt;
    var subprompts := SplitWeightedSubprompts(promptStringCleaned, true);
    if |subprompts| > 1 {
      promptStringCleaned := BlendRewrite(promptStringCleaned, subprompts, render);
    }
    assert promptStringCleaned == PositivePromptText(prompt, render);
    var parts := parse(promptStringCleaned);
    var c := PositiveConditioning(parts);
    if c.Err? {
      return Err(c.error);
    }
    var uc := BlendPromptsAndWeights(cleaned.unconditionedWords);
    return Ok((uc, c.value));
  }

  /** A prompt without brackets and without colons reaches the parser unchanged, and its
      negative conditioning is the single empty prompt. */
  lemma PlainPromptUnchanged(prompt: string, render: real -> string)
    requires '[' !in prompt && ':' !in prompt
    ensures PositivePromptText(prompt, render) == prompt
    ensures BlendPromptsAndWeights(CleanPrompt(prompt).unconditionedWords) == BlendRequest([""], [1.0])
  {
    NoBracketsNothingExtracted(prompt);
    if |prompt| > 0 {
      NoColonSingleSubprompt(prompt);
    } else {
      assert Matches(prompt) == [];
    }
    EmptyTextRequest();
  }
}
