/** The token and per-token weight lists that `WeightedFrozenCLIPEmbedder.forward`
    (ldm/modules/encoders/modules.py) builds for one prompt before calling the transformer:
    each fragment's ids without their first and last entries, concatenated, truncated,
    framed by bos and padded with eos to the maximum length, and beside them one weight per
    id. The tokenizer's output is the input here. */
module WeightedClip {
  import opened Wrappers

  /** `xs[1:-1]`: empty for lists shorter than two. */
  function Middle(xs: seq<int>): (r: seq<int>)
    ensures |r| == if |xs| >= 2 then |xs| - 2 else 0
  {
    if |xs| >= 2 then xs[1..|xs| - 1] else []
  }

  /** `[x] * n`: empty when n is not positive. */
  function Repeat<T>(x: T, n: int): (r: seq<T>)
    ensures |r| == if n > 0 then n else 0
    ensures forall i :: 0 <= i < |r| ==> r[i] == x
  {
    if n > 0 then seq(n, _ => x) else []
  }

  /** `xs[:m]` with Python's meaning for a negative `m` (counted from the end). */
  function SliceTo(xs: seq<int>, m: int): (r: seq<int>)
    ensures |r| <= |xs| && r == xs[..|r|]
    ensures 0 <= m ==> |r| == if m < |xs| then m else |xs|
  {
    if m >= 0 then (if m < |xs| then xs[..m] else xs)
    else if |xs| + m > 0 then xs[..|xs| + m] else []
  }

  /** The ids the fragments contribute, in fragment order. */
  function PromptTokens(encodings: seq<seq<int>>): seq<int>
    decreases |encodings|
  {
    if |encodings| == 0 then [] else PromptTokens(encodings[..|encodings| - 1]) + Middle(encodings[|encodings| - 1])
  }

  /** One weight per contributed id: the weight of the fragment it comes from. */
  function PromptWeights(encodings: seq<seq<int>>, weights: seq<real>): seq<real>
    requires |weights| >= |encodings|
    decreases |encodings|
  {
    if |encodings| == 0 then []
    else
      var n := |encodings| - 1;
      PromptWeights(encodings[..n], weights) + Repeat(weights[n], |encodings[n]| - 2)
  }

  /** The two lists built for one prompt. */
  datatype Assembly = Assembly(tokens: seq<int>, weights: seq<real>)

  /** The token list: bos, the prompt ids cut to `maxLength - 2` when longer, eos padding. */
  function AssembledTokens(encodings: seq<seq<int>>, maxLength: int, bos: int, eos: int): seq<int>
  {
    var all := PromptTokens(encodings);
    var kept := if |all| > maxLength - 2 then SliceTo(all, maxLength - 2) else all;
    [bos] + kept + Repeat(eos, maxLength - 1 - |kept|)
  }

  /** The weight list: 1, the per-id weights (never cut), 1 per padding slot. */
  function AssembledWeights(encodings: seq<seq<int>>, weights: seq<real>, maxLength: int): seq<real>
    requires |weights| >= |encodings|
  {
    var all := PromptTokens(encodings);
    var kept := if |all| > maxLength - 2 then SliceTo(all, maxLength - 2) else all;
    [1.0] + PromptWeights(encodings, weights) + Repeat(1.0, maxLength - 1 - |kept|)
  }

  /** How `forward` fails: IndexError is `item_weights[index]` past the end of the weights;
      UnboundLocalError is the log line after the fragment loop naming `fragment` when the
      first item has no fragments; RuntimeError is `torch.cat` of the `[1, max_length]` batch
      with the one-dimensional tensor of a second item. */
  datatype ClipError = IndexError | UnboundLocalError | RuntimeError

  /** The body of the loop over the batch, for one prompt: fragment by fragment, then the
      truncation and padding. */
  method AssembleItem(encodings: seq<seq<int>>, itemWeights: seq<real>, maxLength: int, bos: int, eos: int)
    returns (r: Result<Assembly, ClipError>)
    ensures |itemWeights| < |encodings| ==> r == Err(IndexError)
    ensures |itemWeights| >= |encodings| ==>
      r == Ok(Assembly(AssembledTokens(encodings, maxLength, bos, eos), AssembledWeights(encodings, itemWeights, maxLength)))
  {
    var allTokens: seq<int> := [];
    var perTokenWeights: seq<real> := [];
    for index := 0 to |encodings|
      invariant index <= |itemWeights|
      invariant allTokens == PromptTokens(encodings[..index])
      invariant perTokenWeights == PromptWeights(encodings[..index], itemWeights)
    {
      if index >= |itemWeights| {
        return Err(IndexError);
      }
      var weight := itemWeights[index];
      var fragmentTokens := encodings[index];
      assert encodings[..index + 1][..index] == encodings[..index];
      allTokens := allTokens + Middle(fragmentTokens);
      perTokenWeights := perTokenWeights + Repeat(weight, |fragmentTokens| - 2);
    }
    assert encodings[..|encodings|] == encodings;
    if |allTokens| > maxLength - 2 {
      allTokens := SliceTo(allTokens, maxLength - 2);
    }
    var padLength := maxLength - 1 - |allTokens|;
    allTokens := [bos] + allTokens;
    allTokens := allTokens + Repeat(eos, padLength);
    perTokenWeights := [1.0] + perTokenWeights;
    perTokenWeights := perTokenWeights + Repeat(1.0, padLength);
    return Ok(Assembly(allTokens, perTokenWeights));
  }

  /** Every contributed id has exactly one weight. */
  lemma {:induction false} PromptWeightsLength(encodings: seq<seq<int>>, weights: seq<real>)
    requires |weights| >= |encodings|
    ensures |PromptWeights(encodings, weights)| == |PromptTokens(encodings)|
    decreases |encodings|
  {
    if |encodings| > 0 {
      PromptWeightsLength(encodings[..|encodings| - 1], weights);
    }
  }

  /** With room for bos and eos, the token list is exactly `maxLength` long: bos, the first
      `maxLength - 2` (or fewer) prompt ids in order, then only eos. */
  lemma TokensShape(encodings: seq<seq<int>>, maxLength: int, bos: int, eos: int)
    requires maxLength >= 2
    ensures var t := AssembledTokens(encodings, maxLength, bos, eos);
      var all := PromptTokens(encodings);
      var n := if |all| < maxLength - 2 then |all| else maxLength - 2;
      |t| == maxLength && t[0] == bos && t[1..n + 1] == all[..n] &&
      forall i :: n + 1 <= i < maxLength ==> t[i] == eos
  {
    var all := PromptTokens(encodings);
    var n := if |all| < maxLength - 2 then |all| else maxLength - 2;
    var kept := if |all| > maxLength - 2 then SliceTo(all, maxLength - 2) else all;
    assert kept == all[..n];
    var t := AssembledTokens(encodings, maxLength, bos, eos);
    assert t == [bos] + kept + Repeat(eos, maxLength - 1 - |kept|);
    assert t[1..n + 1] == kept;
  }

  /** The two lists have the same length exactly when nothing was cut: the weights of the ids
      dropped by truncation stay in the weight list. */
  lemma LengthsAgreeIffNotTruncated(encodings: seq<seq<int>>, weights: seq<real>, maxLength: int, bos: int, eos: int)
    requires maxLength >= 2 && |weights| >= |encodings|
    ensures |AssembledWeights(encodings, weights, maxLength)| == |AssembledTokens(encodings, maxLength, bos, eos)|
      <==> |PromptTokens(encodings)| <= maxLength - 2
    ensures |AssembledWeights(encodings, weights, maxLength)| ==
      |AssembledTokens(encodings, maxLength, bos, eos)| + (if |PromptTokens(encodings)| > maxLength - 2 then |PromptTokens(encodings)| - (maxLength - 2) else 0)
  {
    PromptWeightsLength(encodings, weights);
    TokensShape(encodings, maxLength, bos, eos);
  }

  /** Where fragment i's ids start among the prompt ids. */
  function Offset(encodings: seq<seq<int>>, i: nat): nat
    requires i <= |encodings|
  {
    |PromptTokens(encodings[..i])|
  }

  /** The prompt ids and weights restricted to the first fragments are prefixes of the whole. */
  lemma {:induction false} PromptPrefix(encodings: seq<seq<int>>, weights: seq<real>, i: nat)
    requires i <= |encodings| <= |weights|
    ensures |PromptTokens(encodings[..i])| <= |PromptTokens(encodings)|
    ensures PromptTokens(encodings)[..|PromptTokens(encodings[..i])|] == PromptTokens(encodings[..i])
    ensures |PromptWeights(encodings, weights)| == |PromptTokens(encodings)|
    ensures PromptWeights(encodings, weights)[..|PromptTokens(encodings[..i])|] == PromptWeights(encodings[..i], weights)
    decreases |encodings| - i
  {
    PromptWeightsLength(encodings, weights);
    if i < |encodings| {
      var n := |encodings| - 1;
      PromptPrefix(encodings[..n], weights, i);
      LastFragment(encodings, weights);
      assert encodings[..n][..i] == encodings[..i];
      var t := PromptTokens(encodings[..n]);
      var w := PromptWeights(encodings[..n], weights);
      var k := |PromptTokens(encodings[..i])|;
      PrefixOfConcat(t, Middle(encodings[n]), k);
      PrefixOfConcat(w, Repeat(weights[n], |encodings[n]| - 2), k);
    } else {
      assert encodings[..i] == encodings;
    }
  }

  /** The last fragment's contribution comes after the others'. */
  lemma LastFragment(encodings: seq<seq<int>>, weights: seq<real>)
    requires 0 < |encodings| <= |weights|
    ensures var n := |encodings| - 1;
      PromptTokens(encodings) == PromptTokens(encodings[..n]) + Middle(encodings[n]) &&
      PromptWeights(encodings, weights) == PromptWeights(encodings[..n], weights) + Repeat(weights[n], |encodings[n]| - 2) &&
      |PromptWeights(encodings[..n], weights)| == |PromptTokens(encodings[..n])|
  {
    PromptWeightsLength(encodings[..|encodings| - 1], weights);
  }

  lemma PrefixOfConcat<T>(a: seq<T>, b: seq<T>, k: nat)
    requires k <= |a|
    ensures (a + b)[..k] == a[..k]
  {
  }

  /** Fragment i contributes its middle ids, consecutively at its offset, each with the
      fragment's own weight. */
  lemma FragmentPlacement(encodings: seq<seq<int>>, weights: seq<real>, i: nat, k: nat)
    requires i < |encodings| <= |weights| && k < |Middle(encodings[i])|
    ensures |PromptWeights(encodings, weights)| == |PromptTokens(encodings)|
    ensures Offset(encodings, i) + k < |PromptTokens(encodings)|
    ensures PromptTokens(encodings)[Offset(encodings, i) + k] == Middle(encodings[i])[k]
    ensures PromptWeights(encodings, weights)[Offset(encodings, i) + k] == weights[i]
  {
    PromptWeightsLength(encodings, weights);
    TokenPlacement(encodings, weights, i, k);
    WeightPlacement(encodings, weights, i, k);
  }

  lemma {:induction false} TokenPlacement(encodings: seq<seq<int>>, weights: seq<real>, i: nat, k: nat)
    requires i < |encodings| <= |weights| && k < |Middle(encodings[i])|
    ensures Offset(encodings, i) + k < |PromptTokens(encodings)|
    ensures PromptTokens(encodings)[Offset(encodings, i) + k] == Middle(encodings[i])[k]
    decreases |encodings|
  {
    var n := |encodings| - 1;
    var init := encodings[..n];
    var t := PromptTokens(init);
    assert PromptTokens(encodings) == t + Middle(encodings[n]);
    if i == n {
      assert encodings[..i] == init;
      ConcatRight(t, Middle(encodings[n]), k);
    } else {
      TokenPlacement(init, weights, i, k);
      assert init[..i] == encodings[..i];
      assert init[i] == encodings[i];
      ConcatLeft(t, Middle(encodings[n]), Offset(encodings, i) + k);
    }
  }

  lemma {:induction false} WeightPlacement(encodings: seq<seq<int>>, weights: seq<real>, i: nat, k: nat)
    requires i < |encodings| <= |weights| && k < |Middle(encodings[i])|
    ensures Offset(encodings, i) + k < |PromptWeights(encodings, weights)|
    ensures PromptWeights(encodings, weights)[Offset(encodings, i) + k] == weights[i]
    decreases |encodings|
  {
    var n := |encodings| - 1;
    var init := encodings[..n];
    var w := PromptWeights(init, weights);
    var ws := Repeat(weights[n], |encodings[n]| - 2);
    PromptWeightsLength(init, weights);
    assert PromptWeights(encodings, weights) == w + ws;
    if i == n {
      assert encodings[..i] == init;
      assert k < |ws| && ws[k] == weights[n];
      ConcatRight(w, ws, k);
    } else {
      WeightPlacement(init, weights, i, k);
      assert init[..i] == encodings[..i];
      assert init[i] == encodings[i];
      ConcatLeft(w, ws, Offset(encodings, i) + k);
    }
  }

  lemma ConcatRight<T>(a: seq<T>, b: seq<T>, k: nat)
    requires k < |b|
    ensures |a| + k < |a + b| && (a + b)[|a| + k] == b[k]
  {
  }

  lemma ConcatLeft<T>(a: seq<T>, b: seq<T>, j: nat)
    requires j < |a|
    ensures (a + b)[j] == a[j]
  {
  }

  /** What `forward` hands to the transformer: without `attention_weights` it defers to the
      base embedder; with them it passes the batch built from the items, which stays `None`
      when `zip(text, attention_weights)` is empty. */
  datatype ForwardPath = BaseForward | Weighted(batch: Option<Assembly>)

  function ZipLength<A, B>(a: seq<A>, b: seq<B>): nat
  {
    if |a| < |b| then |a| else |b|
  }

  /** `forward(text, **kwargs)` up to the transformer call. The first item becomes the
      `[1, max_length]` batch; the log line after its fragment loop needs a fragment; every
      later item fails to concatenate, so only a batch of at most one prompt gets through. */
  method Forward(text: seq<seq<seq<int>>>, attentionWeights: Option<seq<seq<real>>>, maxLength: int, bos: int, eos: int)
    returns (r: Result<ForwardPath, ClipError>)
    ensures attentionWeights.None? ==> r == Ok(BaseForward)
    ensures attentionWeights.Some? && ZipLength(text, attentionWeights.value) == 0 ==> r == Ok(Weighted(None))
    ensures attentionWeights.Some? && ZipLength(text, attentionWeights.value) >= 1 ==>
      var ws := attentionWeights.value;
      (|ws[0]| < |text[0]| ==> r == Err(IndexError)) &&
      (|ws[0]| >= |text[0]| && |text[0]| == 0 ==> r == Err(UnboundLocalError)) &&
      (|ws[0]| >= |text[0]| > 0 && ZipLength(text, ws) == 1 ==>
        r == Ok(Weighted(Some(Assembly(AssembledTokens(text[0], maxLength, bos, eos), AssembledWeights(text[0], ws[0], maxLength)))))) &&
      (|ws[0]| >= |text[0]| > 0 && ZipLength(text, ws) >= 2 ==>
        r == Err(if |ws[1]| < |text[1]| then IndexError else RuntimeError))
    ensures r.Ok? && attentionWeights.Some? ==> ZipLength(text, attentionWeights.value) <= 1
  {
    if attentionWeights.None? {
      return Ok(BaseForward);
    }
    var ws := attentionWeights.value;
    var batch: Option<Assembly> := None;
    var fragmentBound := false;
    for i := 0 to ZipLength(text, ws)
      invariant i <= 1
      invariant i == 0 ==> batch.None? && !fragmentBound
      invariant i == 1 ==> fragmentBound && |ws[0]| >= |text[0]| > 0
      invariant i == 1 ==> batch == Some(Assembly(AssembledTokens(text[0], maxLength, bos, eos), AssembledWeights(text[0], ws[0], maxLength)))
    {
      var item := AssembleItem(text[i], ws[i], maxLength, bos, eos);
      if item.Err? {
        return Err(item.error);
      }
      fragmentBound := fragmentBound || |text[i]| > 0;
      if !fragmentBound {
        return Err(UnboundLocalError);
      }
      if batch.Some? {
        return Err(RuntimeError);
      }
      batch := Some(item.value);
    }
    return Ok(Weighted(batch));
  }
}
