/** `get_uc_and_c` of ldm/dream/conditioning.py: the bracketed words become the negative
    conditioning, and the rest is split on `|` into prompts, each conditioned on its own with
    weight 1. The model's embedding call is represented by the request it is given. */
module DreamConditioning {
  import opened PyStrings
  import opened WeightedSubprompts
  import opened UnconditionedWords

  /** The prompts conditioned on: the cleaned prompt cut at each `|`. */
  function Pieces(prompt: string): seq<string>
  {
    Split('|', CleanPrompt(prompt).prompt)
  }

  /** `get_uc_and_c(prompt, model)`: the negative request and one `(request, 1)` per
      `|`-separated piece of the cleaned prompt, in order. */
  method GetUcAndC(prompt: string) returns (uc: BlendRequest, c: seq<(BlendRequest, real)>)
    ensures uc == BlendPromptsAndWeights(CleanPrompt(prompt).unconditionedWords)
    ensures |c| == |Pieces(prompt)|
    ensures forall i :: 0 <= i < |c| ==> c[i] == (BlendPromptsAndWeights(Pieces(prompt)[i]), 1.0)
  {
    var cleaned := CleanPrompt(prompt);
    uc := BlendPromptsAndWeights(cleaned.unconditionedWords);
    var pieces := Split('|', cleaned.prompt);
    c := PositiveConditioning(pieces);
  }

  /** The loop over the pieces: each is conditioned on with weight 1. */
  method PositiveConditioning(pieces: seq<string>) returns (c: seq<(BlendRequest, real)>)
    ensures |c| == |pieces|
    ensures forall i :: 0 <= i < |c| ==> c[i] == (BlendPromptsAndWeights(pieces[i]), 1.0)
  {
    c := [];
    for i := 0 to |pieces|
      invariant |c| == i
      invariant forall j :: 0 <= j < i ==> c[j] == (BlendPromptsAndWeights(pieces[j]), 1.0)
    {
      var thisWeight := 1.0;
      var request := BlendPromptsAndWeights(pieces[i]);
      c := c + [(request, thisWeight)];
    }
  }

  /** The pieces conditioned on are exactly the cleaned prompt cut at each `|`: one more than
      there are bars, none containing a bar, and joined back by `|` they give the cleaned
      prompt. */
  lemma PiecesCoverCleanedPrompt(prompt: string)
    ensures var cleaned := CleanPrompt(prompt).prompt;
      |Split('|', cleaned)| == Count('|', cleaned) + 1 &&
      (forall i :: 0 <= i < |Split('|', cleaned)| ==> '|' !in Split('|', cleaned)[i]) &&
      Join("|", Split('|', cleaned)) == cleaned
  {
    var cleaned := CleanPrompt(prompt).prompt;
    SplitPieces('|', cleaned);
    JoinSplit('|', cleaned);
  }

  /** A prompt without `|` and without brackets gives a single positive request, for the
      whole prompt. */
  lemma SinglePieceWithoutBars(prompt: string)
    requires '|' !in prompt && '[' !in prompt
    ensures Split('|', CleanPrompt(prompt).prompt) == [prompt]
  {
    NoBracketsNothingExtracted(prompt);
    SplitNoSeparator('|', prompt);
  }
}
