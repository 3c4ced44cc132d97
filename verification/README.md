# InvokeAI prompt handling, modelled in Dafny

This project models the prompt-handling front end of InvokeAI's diffusion pipeline and two small
components beside it. Every operation is written in Dafny and proved against its contract.

- **Syntax-tree nodes** of the current prompt parser (`Fragment`, `Attention`, `CFGScale`, `Blend`)
  - Python equality on the nodes;
  - the attention-weight parse actions (a run of n `+` gives 1.1^n, a run of n `-` gives 0.9^n);
  - `fuse_fragments`, which merges adjacent text fragments.
  - Module `PromptParser`, file `prompt_parser.dfy`.
- **Parse actions of the older grammar**
  - the character-by-character escaped-word lexer;
  - `make_text_fragment` and `parse_fragment_str` (quote escaping, the blank case);
  - `make_prompt_from_quoted_string`, `make_attention`, `make_blend` (the `no_normalize` flag);
  - `make_conjunction` (default weights) and the `empty_string` action.
  - Module `PromptParserOld`, file `prompt_parser_old.dfy`.
- **The legacy colon-weighted sub-prompt splitter**
  - the `\:` escape, the default weight 1.0, and normalisation with its zero-sum fallback;
  - the empty fallback of `get_blend_prompts_and_weights`.
  - Module `WeightedSubprompts`, file `subprompts.dfy`. `ldm/invoke/conditioning.py:104-135` and
    `ldm/dream/conditioning.py:61-92` are character-identical, so both files share this one model.
    The table cites one copy or the other.
- **Negative-prompt extraction**: the non-greedy `[...]` spans become the unconditioned words, and
  runs of spaces in what remains are collapsed. Module `UnconditionedWords`, file `brackets.dfy`.
- **The two `get_uc_and_c` functions**
  - the invoke version rewrites several sub-prompts into the `("p1", "p2").blend(w1, w2)` syntax
    and turns every part of the parsed conjunction into a conditioning request (module
    `InvokeConditioning`);
  - the dream version splits the cleaned prompt on `|` (module `DreamConditioning`).
- **The textual-inversion registry**
  - trigger strings with their token ids, pad ids and embedding rows;
  - pad-token naming and trigger-name derivation from a checkpoint filename;
  - the in-place insertion of pad ids after trigger ids;
  - it works over the test utilities' tokenizer, transformer and embeddings-list stand-ins, modelled
    as classes whose fields the methods update.
  - Modules `TextualInversions` and `PromptingTestUtils`.
- **The fixed-length token and per-token weight assembly** of `WeightedFrozenCLIPEmbedder.forward`,
  including how the two lists diverge in length when truncation happens. Module `WeightedClip`.
- **The memory-efficient attention operator dispatch**
  - each operator's `supports` predicate and `uses_tensorcores`;
  - the dispatcher record's `kv` default and the Cutlass-vs-Flash heuristic;
  - the first-match search over the priority list;
  - the rank and shape checks of `memory_efficient_attention`.
  - Module `AttentionDispatch`.

Shared pieces are in two more modules:

- `PyStrings` (`strings.dfy`): Python's `str.join`, `str.split` on one character, `lstrip`,
  whitespace and digit classes, and `str(int)`.
- `Wrappers` (`wrappers.dfy`): `Option` and `Result`.

A Python exception becomes an `Err` value naming the exception.

Weights are Dafny `real`s, so float rounding is not modelled. Some inputs come from outside the
core and become parameters:

- `str(float)` is the parameter `render`;
- the prompt parser's grammar is the parameter `parse`;
- the CUDA device capability and the availability of flash attention are the `Environment` record.

Where a docstring and the code disagree, the model follows the code:

- `add_textual_inversion` documents that it returns "the token id ..., either existing or
  newly-added". For an already-registered trigger the code returns `None`, so `AddTextualInversion`
  returns `Ok(None)`.
- The docstring of `expand_textual_inversion_token_ids` names a `pad_token_id` parameter that the
  function does not have. The pad ids come from the registry's records.

## Model

| member | source | states |
|---|---|---|
| PromptParser.PyEqIsEquality | ldm/invoke/prompt_parser.py:6-36 | the `__eq__` methods (text for Fragment, weight and fragment for Attention, scale and fragment for CFGScale) coincide with structural equality of the nodes |
| PromptParser.ExplicitAttention | ldm/invoke/prompt_parser.py:72 | the `number(...)` form gives an Attention node whose weight is that number and whose fragment is the text |
| PromptParser.PlusAttention | ldm/invoke/prompt_parser.py:73 | a run of n `+` gives an Attention node of weight 1.1^n over the text |
| PromptParser.MinusAttention | ldm/invoke/prompt_parser.py:74 | a run of n `-` gives an Attention node of weight 0.9^n over the text |
| PromptParser.PlusWeightGrows | ldm/invoke/prompt_parser.py:73 | plus weights are above 1 and strictly increase with the length of the run |
| PromptParser.MinusWeightShrinks | ldm/invoke/prompt_parser.py:74 | minus weights lie in (0, 1) and strictly decrease with the length of the run |
| PromptParser.FuseFragments | ldm/invoke/prompt_parser.py:106-117 | the in-place loop over `result[-1]` computes the fusion `Fused` of its input |
| PromptParser.FuseStep | ldm/invoke/prompt_parser.py:108-116 | one loop step grows the result by at most one element; a non-Fragment item is appended unchanged; after a Fragment the result ends in a Fragment |
| PromptParser.Fused | ldm/invoke/prompt_parser.py:106-117 | the fusion is never longer than its input and is empty exactly when the input is |
| PromptParser.FusedShape | ldm/invoke/prompt_parser.py:106-117 | no two adjacent Fragments in the output; the output is no longer than the input and empty exactly when the input is; it ends in a Fragment iff the input does; the non-Fragment items are kept, in order |
| PromptParser.FuseStepShape | ldm/invoke/prompt_parser.py:108-116 | one loop step keeps the no-adjacent-Fragments invariant, grows the result by at most one and appends a non-Fragment item unchanged |
| PromptParser.FusedRun | ldm/invoke/prompt_parser.py:112-116 | a non-empty run of Fragments becomes one Fragment whose text is the run's texts joined by single spaces |
| PromptParser.FusedBreak | ldm/invoke/prompt_parser.py:109-111 | a non-Fragment item stops fusion across it: the parts before and after are fused independently and it is kept in place |
| PromptParser.FusedFixpoint | ldm/invoke/prompt_parser.py:106-117 | a list with no adjacent Fragments is left unchanged |
| PromptParser.FusedIdempotent | ldm/invoke/prompt_parser.py:106-117 | fusing twice is the same as fusing once |
| PromptParser.NewBlend | ldm/invoke/prompt_parser.py:38-44 | construction fails with ParsingException exactly when the counts of prompts and weights differ; on success the weights are stored unchanged and each prompt is stored fused |
| PromptParser.BlendPromptsAreFused | ldm/invoke/prompt_parser.py:41-44 | a built Blend has as many prompts as weights, and each stored prompt has no adjacent Fragments and is a fixpoint of fusion |
| PromptParserOld.EscapeLiterals | ldm/invoke/prompt_parser_old.py:31-33 | one escape literal per escapable character: a backslash followed by that character, in order |
| PromptParserOld.BuildEscapes | ldm/invoke/prompt_parser_old.py:30-33 | the appending loop yields exactly the escape literals of the character set |
| PromptParserOld.MatchLiteral | ldm/invoke/prompt_parser_old.py:33-35 | a match of `MatchFirst` over literals is the start of the input and one of the literals |
| PromptParserOld.MatchLiteralMisses | ldm/invoke/prompt_parser_old.py:33-35 | nothing is matched exactly when no non-empty literal starts the input |
| PromptParserOld.MatchEscapes | ldm/invoke/prompt_parser_old.py:33-35 | trying the escape literals in order matches two characters exactly when the input starts with a backslash followed by an escapable character, and nothing otherwise |
| PromptParserOld.UnitLength | ldm/invoke/prompt_parser_old.py:35-38 | a lexical unit never reaches past the end of the input |
| PromptParserOld.WordLength | ldm/invoke/prompt_parser_old.py:34-38 | a word (one or more units) never reaches past the end of the input, and no unit starts where it stops |
| PromptParserOld.LexEscapedWord | ldm/invoke/prompt_parser_old.py:34-39 | a word is matched exactly when a unit can start the input; the match is a non-empty prefix of the input, and no further unit can follow it (the longest match of `OneOrMore`) |
| PromptParserOld.WordUnits | ldm/invoke/prompt_parser_old.py:30-39 | inside a matched word every escapable character is preceded by a backslash, which stays in the matched text; the word stops where no unit can start |
| PromptParserOld.WordHasNoWhitespace | ldm/invoke/prompt_parser_old.py:35-37 | when no escapable character is whitespace, a matched word contains no whitespace |
| PromptParserOld.PlainWordMatchesWhole | ldm/invoke/prompt_parser_old.py:30-39 | a non-empty run of ordinary characters followed by whitespace or the end is lexed as exactly that word |
| PromptParserOld.MakeTextFragment | ldm/invoke/prompt_parser_old.py:18-28 | a non-empty string, or a non-empty token list of strings, becomes one Fragment, the list joined by single spaces; `x[0]` is read first, so an empty string or list raises IndexError; a list starting with a Fragment fails the assertion; a token list holding a non-string raises TypeError in `' '.join`; any other non-empty sequence raises ParsingException |
| PromptParserOld.TextFragmentSplitsBack | ldm/invoke/prompt_parser_old.py:24-26 | splitting the joined Fragment's text on spaces gives back the words when no word contains a space |
| PromptParserOld.EscapeQuotes | ldm/invoke/prompt_parser_old.py:53 | escaping adds exactly one backslash per double quote |
| PromptParserOld.UnescapeQuotes | ldm/invoke/prompt_parser_old.py:51-53 | undoing the quote escaping never lengthens the text and leaves a text without double quotes unchanged |
| PromptParserOld.QuoteEscapingRoundTrip | ldm/invoke/prompt_parser_old.py:51-53 | unescaping the escaped text gives back the original text |
| PromptParserOld.ParseFragmentStr | ldm/invoke/prompt_parser_old.py:43-53 | blank input gives `Fragment('')` and nothing else does; otherwise the text is parsed, with every `"` escaped first when in quotes |
| PromptParserOld.Interior | ldm/invoke/prompt_parser_old.py:230 | the interior drops the first and last characters |
| PromptParserOld.MakePromptFromQuotedString | ldm/invoke/prompt_parser_old.py:227-237 | a blank interior gives `Prompt([Fragment('')])` and nothing else does; otherwise the interior is parsed |
| PromptParserOld.QuotedInterior | ldm/invoke/prompt_parser_old.py:230 | the interior of a double-quoted text is that text |
| PromptParserOld.EmptyStringAction | ldm/invoke/prompt_parser_old.py:164-167 | the action yields a Fragment with empty text |
| PromptParserOld.WrapChild | ldm/invoke/prompt_parser_old.py:156 | a string child becomes a Fragment with the same text; any other child is kept as it is |
| PromptParserOld.FootWeight | ldm/invoke/prompt_parser_old.py:145-154 | a number is the weight; a `+` run of n gives plus_base^n and a `-` run minus_base^n; a node gives the default 1.0; an empty string raises IndexError, and nothing else fails |
| PromptParserOld.MakeAttention | ldm/invoke/prompt_parser_old.py:143-156 | an empty group raises IndexError; a numeric foot is the weight; a `+` run of n gives plus_base^n and a `-` run gives minus_base^n; the children are the group without its foot, strings wrapped as Fragments and the rest unchanged, in order |
| PromptParserOld.SignWeightsAgreeWithCurrentParser | ldm/invoke/prompt_parser_old.py:151-152 | with the current parser's bases, the old action gives the same weights as the current parser's `+`/`-` actions |
| PromptParserOld.MakeBlend | ldm/invoke/prompt_parser_old.py:250-257 | no weights raises IndexError; a trailing `no_normalize` is removed and turns normalisation off; otherwise the weights are kept and normalisation is on |
| PromptParserOld.NoNormalizeOnlyFlips | ldm/invoke/prompt_parser_old.py:253-257 | appending `no_normalize` changes nothing but the normalisation flag |
| PromptParserOld.MakeConjunction | ldm/invoke/prompt_parser_old.py:266-270 | the parts are kept; given weights are used as they are; missing weights default to 1.0 per part |
| WeightedSubprompts.PromptLength | ldm/invoke/conditioning.py:112-114 | the sub-prompt text stops at an unescaped `:` or at the end, and is non-empty when the text does not start with `:` |
| WeightedSubprompts.DigitRun | ldm/invoke/conditioning.py:118 | the longest prefix of ASCII digits |
| WeightedSubprompts.SpaceRun | ldm/invoke/conditioning.py:120 | the longest prefix of whitespace, so that whitespace after a weight is consumed |
| WeightedSubprompts.NumberLength | ldm/invoke/conditioning.py:117-119 | the weight pattern never reaches past the end of the input |
| WeightedSubprompts.NumberValue | ldm/invoke/conditioning.py:125-126 | `float` of the `weight` group: a leading `-` gives a non-positive value and no sign a non-negative one; `SplitRendered` proves that written weights are read back exactly |
| WeightedSubprompts.Matches | ldm/invoke/conditioning.py:111-126 | the `re.finditer` scan: every match has a non-empty prompt (the `+` of the prompt group) and there are no more matches than characters; `MatchesOne` and `MatchesRendered` give what it reads |
| WeightedSubprompts.UnescapeColons | ldm/invoke/conditioning.py:125 | `.replace("\\:", ":")` never lengthens the text and leaves a text without backslashes unchanged; `UnescapeEscaped` proves it undoes the escaping of colons |
| WeightedSubprompts.Parsed | ldm/invoke/conditioning.py:125-126 | one sub-prompt per regex match |
| WeightedSubprompts.Normalise | ldm/invoke/conditioning.py:129-135 | the texts are kept; a zero weight sum gives every sub-prompt 1/n; otherwise each weight is divided by the sum |
| WeightedSubprompts.SplitWeightedSubprompts | ldm/invoke/conditioning.py:104-135 | with `skip_normalize` the parsed sub-prompts are returned as they are, otherwise normalised |
| WeightedSubprompts.NormalisedWeightsSumToOne | ldm/dream/conditioning.py:86-92 | for a non-empty list the normalised weights sum to 1, on both the zero-sum and the dividing branch |
| WeightedSubprompts.WeightSumScaled | ldm/dream/conditioning.py:92 | dividing every weight by d divides the sum by d |
| WeightedSubprompts.WeightSumConstant | ldm/dream/conditioning.py:86-91 | n equal weights w sum to n*w |
| WeightedSubprompts.UnescapeEscaped | ldm/invoke/conditioning.py:125 | turning `\:` back into `:` undoes the escaping of colons, for every text |
| WeightedSubprompts.NumberStops | ldm/invoke/conditioning.py:118 | the weight pattern matches exactly a written number when a space or the end follows it |
| WeightedSubprompts.WeightAfterColon | ldm/invoke/conditioning.py:116-120 | after a colon, a written number is read as the weight and one following run of whitespace is consumed |
| WeightedSubprompts.MatchesOne | ldm/dream/conditioning.py:68-83 | a written `text:weight` followed by a space is read as one match with that escaped text and that weight, and reading goes on after the space |
| WeightedSubprompts.MatchesRendered | ldm/invoke/conditioning.py:111-124 | the regex reads a rendered list of sub-prompts back match by match, in left-to-right order |
| WeightedSubprompts.SplitRendered | ldm/dream/conditioning.py:68-83 | round trip: parsing the rendering of sub-prompts with colon-escaped texts and written weights gives back those texts and weights |
| WeightedSubprompts.NoColonSingleSubprompt | ldm/dream/conditioning.py:68-85 | a non-empty text without colons is one sub-prompt with the default weight 1.0 |
| WeightedSubprompts.ZeroSumExample | ldm/invoke/conditioning.py:129-134 | `a:1 b:-1` has weight sum 0 and normalises to two weights of 0.5 |
| WeightedSubprompts.ExampleParsed | ldm/invoke/conditioning.py:125-126 | `a:1 b:-1` parses to `a` with 1.0 and `b` with -1.0 |
| WeightedSubprompts.ExampleNormalised | ldm/dream/conditioning.py:86-91 | the zero-sum fallback of that example gives 0.5 each |
| WeightedSubprompts.BlendPromptsAndWeights | ldm/invoke/conditioning.py:80-92 | there is always at least one sub-prompt, and as many weights as sub-prompts |
| WeightedSubprompts.BlendRequestOfParsed | ldm/dream/conditioning.py:33-45 | the request holds the raw (unnormalised) parsed sub-prompts, texts and weights side by side and in order, or `['']` with `[1]` when there are none |
| WeightedSubprompts.EmptyTextRequest | ldm/invoke/conditioning.py:86-91 | an empty prompt yields `['']` with weights `[1]` |
| UnconditionedWords.CloseBracket | ldm/invoke/conditioning.py:22-23 | the lazy `.*?\]` stops at the first `]`, and no newline comes before it |
| UnconditionedWords.ExtractBrackets | ldm/invoke/conditioning.py:22-30 | the extracted spans contain neither `]` nor a newline |
| UnconditionedWords.NoBracketsNothingExtracted | ldm/invoke/conditioning.py:25-33 | a prompt without `[` gives no spans and is left as it is |
| UnconditionedWords.CollapseSpaces | ldm/invoke/conditioning.py:31 | collapsing never lengthens the text and keeps its first character |
| UnconditionedWords.CollapseSpacesProperties | ldm/invoke/conditioning.py:31 | the result has no two adjacent spaces and keeps all non-space characters, in order |
| UnconditionedWords.CollapseSpacesFixpoint | ldm/invoke/conditioning.py:31 | a text without double spaces is unchanged |
| UnconditionedWords.CollapseSpacesIdempotent | ldm/invoke/conditioning.py:31 | collapsing twice is collapsing once |
| UnconditionedWords.CleanPrompt | ldm/dream/conditioning.py:17-30 | the unconditioned words are the spans joined by spaces; without spans the prompt is unchanged; with spans the cleaned prompt has no double spaces and keeps the non-space characters outside the brackets |
| UnconditionedWords.ExtractSpelled | ldm/invoke/conditioning.py:22-30 | for a prompt spelled from plain pieces and `[word]` pieces, the spans are exactly the bracketed words in order, and each bracket is replaced by one space |
| UnconditionedWords.CleanSpelled | ldm/dream/conditioning.py:19-30 | for such a prompt, the negative text is the bracketed words joined by spaces and the positive text is the blanked prompt with spaces collapsed |
| UnconditionedWords.CleanExample | ldm/invoke/conditioning.py:19-33 | `a [b] c` gives the negative text `b` and the prompt `a c` |
| InvokeConditioning.BlendRewrite | ldm/invoke/conditioning.py:36-44 | with at most one sub-prompt the prompt is unchanged; with more it becomes a parenthesised `.blend(...)` expression |
| InvokeConditioning.Quote | ldm/invoke/conditioning.py:40 | `'"' + text + '"'`; `RewriteCarriesTexts` proves the quoted texts are read back from the rewrite |
| InvokeConditioning.RenderedWeights | ldm/invoke/conditioning.py:41 | `[str(x[1]) for x in ...]` through `render`; `RewriteCarriesWeights` proves they are read back from the rewrite |
| InvokeConditioning.RewriteCarriesTexts | ldm/invoke/conditioning.py:39-44 | the rewritten blend string's quoted strings are exactly the sub-prompt texts, in order, when those contain no double quote |
| InvokeConditioning.RewriteShape | ldm/invoke/conditioning.py:42-44 | in a string of the form `("t1", "t2", ...).blend(weights)` whose weights hold no double quote, the quoted strings read back are exactly t1, t2, ... |
| InvokeConditioning.RewriteCarriesWeights | ldm/invoke/conditioning.py:39-44 | the arguments of the rewritten prompt's final `.blend(...)`, split on commas, are exactly the rendered weights, in order, when no rendered weight holds `(` or `,` or starts with a space |
| PyStrings.ReadListJoin | ldm/invoke/conditioning.py:43 | round trip: reading back a `", "`-joined list of comma-free items that do not start with a space gives the items |
| InvokeConditioning.EmbeddingsFor | ldm/invoke/conditioning.py:58-64 | only a flattened prompt is accepted, and it gives one fragment and one weight per child |
| InvokeConditioning.EmbeddingsUnzip | ldm/invoke/conditioning.py:61-62 | zipping the fragments and weights back gives the flattened prompt's children |
| InvokeConditioning.Fragments | ldm/invoke/conditioning.py:61 | the fragment texts of the children; `EmbeddingsUnzip` proves zipping them with the weights gives the children back |
| InvokeConditioning.Weights | ldm/invoke/conditioning.py:62 | the attention weights of the children; `EmbeddingsUnzip` as above |
| InvokeConditioning.BlendRequests | ldm/invoke/conditioning.py:69-71 | the loop gives one embedding request per child of the blend, in order, and fails exactly when some child is not flattened |
| InvokeConditioning.PositiveConditioning | ldm/invoke/conditioning.py:66-77 | one `(request, 1.0)` per part of the conjunction, in order; it fails exactly when some part is neither flattened nor a blend of flattened prompts |
| InvokeConditioning.GetUcAndC | ldm/invoke/conditioning.py:18-102 | it fails (the TypeError of the string `raise`) exactly when some parsed part is not usable, before the negative conditioning is computed; on success the negative conditioning is the blend request of the bracketed words and the positive list is the per-part requests of the parsed, cleaned and rewritten prompt |
| InvokeConditioning.PositivePromptText | ldm/invoke/conditioning.py:18-44 | the text handed to the parser: the cleaned prompt, rewritten when there are several sub-prompts; `PlainPromptUnchanged` and `RewriteCarriesTexts` give its meaning |
| InvokeConditioning.PlainPromptUnchanged | ldm/invoke/conditioning.py:18-44 | a prompt without `[` and `:` reaches the parser unchanged, and its negative conditioning is `['']` with `[1]` |
| DreamConditioning.PositiveConditioning | ldm/dream/conditioning.py:48-52 | one `(blend request, 1)` per `|` piece, in order |
| DreamConditioning.GetUcAndC | ldm/dream/conditioning.py:15-59 | the negative conditioning is the blend request of the bracketed words, and the positive list has one entry of weight 1 per `|` piece of the cleaned prompt |
| DreamConditioning.Pieces | ldm/dream/conditioning.py:50 | the cleaned prompt cut at each `|`; `PiecesCoverCleanedPrompt` proves the pieces rejoin to it and hold no `|` |
| DreamConditioning.PiecesCoverCleanedPrompt | ldm/dream/conditioning.py:50 | joining the pieces with `|` gives back the cleaned prompt, and no piece contains `|` |
| DreamConditioning.SinglePieceWithoutBars | ldm/dream/conditioning.py:22-30 | a prompt without `|` and `[` is a single piece, unchanged |
| PyStrings.SplitPieces | ldm/dream/conditioning.py:50 | splitting on a character gives one more piece than it has occurrences, and no piece contains it |
| PyStrings.JoinSplit | ldm/dream/conditioning.py:50 | joining the pieces with the separator gives back the text |
| PyStrings.SplitJoin | ldm/modules/textual_inversion_manager.py:61 | splitting a join of separator-free pieces gives back the pieces |
| PyStrings.SplitNoSeparator | ldm/modules/textual_inversion_manager.py:61 | a text without the separator is one piece |
| PyStrings.SplitAround | ldm/modules/textual_inversion_manager.py:61 | splitting `a + c + b` on `c` is the pieces of `a` followed by the pieces of `b` |
| PyStrings.NatToString | ldm/modules/textual_inversion_manager.py:94 | `str` of a natural number is a non-empty string of digits |
| PyStrings.NatToStringInjective | ldm/modules/textual_inversion_manager.py:94 | distinct numbers have distinct decimal forms |
| TextualInversions.EmbeddingVectorLength | ldm/modules/textual_inversion_manager.py:21-23 | for a well-formed record V is one more than the number of pad ids, which is how many pads `expand_textual_inversion_token_ids` inserts |
| TextualInversions.PadTokenString | ldm/modules/textual_inversion_manager.py:94 | the name `trigger-!pad-i`; `PadStringsDistinct` proves that distinct indices give distinct names, none equal to the trigger |
| TextualInversions.PadTokenStrings | ldm/modules/textual_inversion_manager.py:94 | V-1 pad strings for V rows, the i-th being `trigger-!pad-i` for i from 1 |
| TextualInversions.PadStringsDistinct | ldm/modules/textual_inversion_manager.py:94 | the pad strings of a trigger are pairwise distinct and differ from the trigger |
| TextualInversions.WithTokens | ldm/modules/textual_inversion_manager.py:117-119 | adding strings one by one keeps the old vocabulary as a prefix and appends at most one entry per string |
| TextualInversions.WithTokensContains | ldm/modules/textual_inversion_manager.py:117-119 | every added string is in the vocabulary afterwards |
| TextualInversions.WithTokensAppend | ldm/modules/textual_inversion_manager.py:97-99 | adding the trigger and then the pad strings is adding their concatenation |
| TextualInversions.FindByTrigger | ldm/modules/textual_inversion_manager.py:141 | the index of the first record with that trigger string, or none when no record has it |
| TextualInversions.FindByTokenId | ldm/modules/textual_inversion_manager.py:145 | the index of the first record with that trigger token id, or none when no record has it |
| TextualInversions.TriggerFromFilename | ldm/modules/textual_inversion_manager.py:61 | `'.'.join(filename.split('.')[:-1])`; `TriggerDropsLastExtension` and `TriggerWithoutDot` give its meaning |
| TextualInversions.Basename | ldm/modules/textual_inversion_manager.py:60 | `os.path.basename`: the result holds no `/`, and a path without `/` is its own basename |
| TextualInversions.TriggerForCheckpoint | ldm/modules/textual_inversion_manager.py:60-61 | the trigger of a `.pt` checkpoint path; `TriggerIgnoresDirectory` proves only the file name matters |
| TextualInversions.TriggerDropsLastExtension | ldm/modules/textual_inversion_manager.py:60-61 | the trigger of `name.ext` is `name`, only the last extension being dropped |
| TextualInversions.TriggerWithoutDot | ldm/modules/textual_inversion_manager.py:61 | a filename without a dot gives the empty trigger |
| TextualInversions.TriggerIgnoresDirectory | ldm/modules/textual_inversion_manager.py:60-61 | the directory part of the checkpoint path plays no part in the trigger |
| TextualInversions.IdsStable | ldm/modules/textual_inversion_manager.py:117-125 | adding a token to the tokenizer does not change the id of a token it already knew |
| TextualInversions.TextualInversionManager.constructor | ldm/modules/textual_inversion_manager.py:26-31 | a new manager has no records and keeps the tokenizer, the transformer and the precision flag |
| TextualInversions.TextualInversionManager.TriggerStrings | ldm/modules/textual_inversion_manager.py:46-47 | the trigger strings of the records, in order |
| TextualInversions.TextualInversionManager.GetTextualInversionForTriggerString | ldm/modules/textual_inversion_manager.py:140-141 | a record with that trigger string when one is registered, StopIteration exactly when none is |
| TextualInversions.TextualInversionManager.HasTextualInversionForTriggerString | ldm/modules/textual_inversion_manager.py:133-138 | true exactly when some record has that trigger string |
| TextualInversions.TextualInversionManager.GetTextualInversionForTokenId | ldm/modules/textual_inversion_manager.py:144-145 | the first record with that trigger token id (no earlier record has it) when one exists, StopIteration exactly when none does |
| TextualInversions.TextualInversionManager.CreateTokenIdAndAssignEmbedding | ldm/modules/textual_inversion_manager.py:114-131 | a non-1-d embedding raises ValueError with no change; a token is added (and the embeddings resized) only when it maps to unk; RuntimeError exactly when it still maps to unk; on success the id is the tokenizer's id for the token and that embedding row is assigned; for a vector the new vocabulary is the old one with the token added if absent, and it succeeds whenever the old vocabulary is shorter than the unk id |
| TextualInversions.TextualInversionManager.AddTextualInversion | ldm/modules/textual_inversion_manager.py:76-111 | a registered trigger returns None with no change; rank above 2 raises ValueError; a scalar or an empty matrix raises IndexError; a 1-d embedding is one row; on success one record is appended at the end, with the trigger's id and one pad id per further row, the vocabulary gains the trigger and pad strings, each id holds its row and no other slot of the old embeddings changes; a new trigger with a non-empty embedding always succeeds while the new ids stay below unk; on failure the records are unchanged |
| TextualInversions.TextualInversionManager.RegisterRows | ldm/modules/textual_inversion_manager.py:96-105 | the `try` block: on success the record is appended with the trigger's id and the pad ids, the vocabulary and the rows written are those of the trigger and pad strings, and every other slot is kept; it fails only with RuntimeError, leaving the records unchanged, and never while the new ids stay below unk |
| TextualInversions.TextualInversionManager.CreatePadTokenIds | ldm/modules/textual_inversion_manager.py:98-99 | one id per pad string, each the tokenizer's id for its string and holding the next row of the embedding; the new vocabulary is the old one with the pad strings added; no other slot changes and the trigger keeps its id and its row; it fails only with RuntimeError and succeeds while the new ids stay below unk |
| TextualInversions.TextualInversionManager.ExpandTextualInversionTokenIds | ldm/modules/textual_inversion_manager.py:147-171 | empty input is returned as it is; a leading bos or a trailing eos raises ValueError; otherwise the result is the expansion `Expanded` of the input |
| TextualInversions.TextualInversionManager.InsertPads | ldm/modules/textual_inversion_manager.py:168-169 | the insertion loop puts the record's pad ids, in order, at the given position |
| TextualInversions.TextualInversionManager.ExpandedAppend | ldm/modules/textual_inversion_manager.py:165-169 | the expansion distributes over concatenation |
| TextualInversions.TextualInversionManager.ExpandedLength | ldm/modules/textual_inversion_manager.py:163-171 | the output length is the input length plus V-1 for every trigger occurrence |
| TextualInversions.TextualInversionManager.ExpandedPlacement | ldm/modules/textual_inversion_manager.py:165-169 | every input id appears at its computed position, immediately followed by its record's pad ids, so the other ids keep their relative order |
| TextualInversions.TextualInversionManager.Expanded | ldm/modules/textual_inversion_manager.py:163-171 | the expansion is never shorter than its input and is empty exactly when the input is |
| TextualInversions.TextualInversionManager.ExpandedWithoutTriggers | ldm/modules/textual_inversion_manager.py:165-166 | ids with no record are left unchanged |
| PromptingTestUtils.DummyEmbeddingsList.constructor | tests/prompting_test_utils.py:20 | a list of n zero slots |
| PromptingTestUtils.DummyEmbeddingsList.NumEmbeddings | tests/prompting_test_utils.py:11-12 | `num_embeddings` is the list's length |
| PromptingTestUtils.DummyEmbeddingsList.Weight | tests/prompting_test_utils.py:13-14 | `weight` is the list itself |
| PromptingTestUtils.DummyEmbeddingsList.Data | tests/prompting_test_utils.py:15-16 | `data` is the list itself |
| PromptingTestUtils.DummyEmbeddingsList.Pop | tests/prompting_test_utils.py:27 | `pop(-1)` drops the last slot |
| PromptingTestUtils.DummyEmbeddingsList.AppendZero | tests/prompting_test_utils.py:29 | `append(0)` adds one zero slot at the end |
| PromptingTestUtils.DummyEmbeddingsList.Assign | ldm/modules/textual_inversion_manager.py:129 | item assignment replaces that one slot by the row |
| PromptingTestUtils.Resized | tests/prompting_test_utils.py:25-29 | a resize to n keeps the first min(old, n) slots and pads with zeros to length n |
| PromptingTestUtils.DummyTransformer.constructor | tests/prompting_test_utils.py:19-20 | a fresh list of one zero slot per known word |
| PromptingTestUtils.DummyTransformer.GetInputEmbeddings | tests/prompting_test_utils.py:31-32 | the transformer's own embeddings list |
| PromptingTestUtils.DummyTransformer.ResizeTokenEmbeddings | tests/prompting_test_utils.py:22-29 | no size returns the list unchanged; a size n makes the list `Resized(old, n)`; a negative size empties the list and then fails on popping from it |
| PromptingTestUtils.DummyTokenizer.constructor | tests/prompting_test_utils.py:35-40 | the vocabulary starts as `a`, `b`, `c` |
| PromptingTestUtils.DummyTokenizer.ConvertTokensToIds | tests/prompting_test_utils.py:42-46 | the index of the first occurrence, or unk (49407) for an absent token |
| PromptingTestUtils.DummyTokenizer.AddTokens | tests/prompting_test_utils.py:48-52 | a present token returns 0 with no change; otherwise the token is appended and 1 returned |
| PromptingTestUtils.FirstIndex | tests/prompting_test_utils.py:42-46 | the index of the first occurrence, or 49407 when absent |
| PromptingTestUtils.KnownWordIds | tests/prompting_test_utils.py:5-6 | `a`, `b`, `c` have ids 0, 1, 2, and any other word maps to unk |
| PromptingTestUtils.AddedTokenId | tests/prompting_test_utils.py:42-52 | after adding a new token its id is its position at the end, and the ids of known tokens do not change |
| WeightedClip.Middle | ldm/modules/encoders/modules.py:501 | dropping the first and last ids leaves two fewer, or none |
| WeightedClip.Repeat | ldm/modules/encoders/modules.py:512 | `[x] * n` is n copies of x, and empty for n at most 0 |
| WeightedClip.SliceTo | ldm/modules/encoders/modules.py:506 | `xs[:m]` is a prefix of min(m, len) elements |
| WeightedClip.PromptTokens | ldm/modules/encoders/modules.py:495-501 | the ids the fragments contribute, each stripped of bos and eos; `TokenPlacement`, `FragmentPlacement` and `PromptPrefix` give where each lands |
| WeightedClip.PromptWeights | ldm/modules/encoders/modules.py:496-502 | one weight per contributed id; `PromptWeightsLength` and `WeightPlacement` prove its length and that each id carries its fragment's weight |
| WeightedClip.AssembledTokens | ldm/modules/encoders/modules.py:504-512 | the token list; `TokensShape` proves it is exactly `max_length` long, bos, the kept prompt ids, then eos |
| WeightedClip.AssembledWeights | ldm/modules/encoders/modules.py:504-514 | the weight list, which is never cut; `LengthsAgreeIffNotTruncated` compares its length with the token list's |
| WeightedClip.AssembleItem | ldm/modules/encoders/modules.py:483-514 | the extend/insert/truncate/pad steps give the assembled token list and weight list; too few weights for the fragments raises IndexError |
| WeightedClip.PromptWeightsLength | ldm/modules/encoders/modules.py:496-502 | before truncation there is one weight per retained token |
| WeightedClip.TokenPlacement | ldm/modules/encoders/modules.py:501 | the k-th retained id of fragment i lands at that fragment's offset plus k |
| WeightedClip.WeightPlacement | ldm/modules/encoders/modules.py:496-502 | the weight at that position is fragment i's weight |
| WeightedClip.FragmentPlacement | ldm/modules/encoders/modules.py:495-502 | fragment ids are stripped of bos/eos and concatenated in order, and every retained id carries its own fragment's weight |
| WeightedClip.PromptPrefix | ldm/modules/encoders/modules.py:495-502 | the tokens and weights of the first i fragments are a prefix of those of all fragments |
| WeightedClip.TokensShape | ldm/modules/encoders/modules.py:504-512 | the token list is exactly `max_length` long: bos, then the first `max_length - 2` prompt ids (or fewer), then only eos |
| WeightedClip.LengthsAgreeIffNotTruncated | ldm/modules/encoders/modules.py:504-514 | the weight list is as long as the token list exactly when nothing was truncated, and longer by the number of truncated ids otherwise |
| WeightedClip.Forward | ldm/modules/encoders/modules.py:473-521 | without `attention_weights` it falls back to the base forward; an empty zip leaves the batch `None`; a first item with fewer weights than fragments raises IndexError, and one with no fragments UnboundLocalError (`fragment` is read unbound); a single item gives the assembled token and weight lists; a second item raises IndexError if it is short of weights and otherwise RuntimeError from the `torch.cat` along dimension 1 of 2-d and 1-d tensors |
| AttentionDispatch.NewDispatch | ldm/models/diffusion/memory_efficient_attention.py:828-830 | `kv = -1` is replaced by `k`, and every other field is stored as given |
| AttentionDispatch.DefaultDispatch | ldm/models/diffusion/memory_efficient_attention.py:809-826 | the dataclass defaults: kv is k, batch size -1, one head, no custom scale, grad required |
| AttentionDispatch.Replace | ldm/models/diffusion/memory_efficient_attention.py:782 | `dataclasses.replace(d, requires_grad=...)`, a fresh construction; `ReplaceOnlyChangesGrad` proves it changes only that field |
| AttentionDispatch.ReplaceOnlyChangesGrad | ldm/models/diffusion/memory_efficient_attention.py:780-782 | `replace(requires_grad=...)` of a built dispatcher changes only that field, since post-init does nothing more |
| AttentionDispatch.BaseSupports | ldm/models/diffusion/memory_efficient_attention.py:184-209 | rejects an unsupported device type or dtype, k ≠ kv without different-value-embed support, max(k, kv) above the op's maximum, an unsupported bias type, unsupported dropout or custom scale, and bfloat16 off CUDA or below major capability 8, and accepts everything else |
| AttentionDispatch.SmallKPackRule | ldm/models/diffusion/memory_efficient_attention.py:243-247 | some pack in {1, 2, 4} divides k with k/pack ≤ 8 exactly when k ≤ 8, or k is even and ≤ 16, or a multiple of 4 and ≤ 32 |
| AttentionDispatch.SmallKSupports | ldm/models/diffusion/memory_efficient_attention.py:239-246 | the small-k op's `supports`: base support and the pack loop, whose closed form `SmallKPackRule` proves |
| AttentionDispatch.UsesTensorcores | ldm/models/diffusion/memory_efficient_attention.py:418-425 | tensor cores are used exactly when major ≥ 8, or major ≥ 7 with a 16-bit dtype |
| AttentionDispatch.BitsPerScalar | ldm/models/diffusion/memory_efficient_attention.py:433 | 32 bits for float32, 16 for the half types |
| AttentionDispatch.MatmulAlignment | ldm/models/diffusion/memory_efficient_attention.py:432-439 | `matmul_alignment_mn`; `AlignmentTable` gives its value by capability and dtype |
| AttentionDispatch.SharedMemoryShort | ldm/models/diffusion/memory_efficient_attention.py:444-450 | the Sm86 shared-memory rule, which `CutlassSupports` proves rejects the input |
| AttentionDispatch.AlignmentTable | ldm/models/diffusion/memory_efficient_attention.py:427-441 | the matmul alignment is 4 (fp32) or 8 (half) from sm 80, 1 or 8 on sm 7x, and 1 below |
| AttentionDispatch.CutlassSupports | ldm/models/diffusion/memory_efficient_attention.py:427-452 | Cutlass needs base support, k and kv multiples of the alignment, and not (grad ∧ sm > 80 ∧ fp32 ∧ max(k, kv) > 64); these together suffice |
| AttentionDispatch.FlashSupports | ldm/models/diffusion/memory_efficient_attention.py:503-517 | Flash needs flash attention available, base support, k in {16, 32, 64, 128}, capability at least (7, 5), and exactly sm 8.0 when grad is needed with k = 128; these together suffice |
| AttentionDispatch.Supports | ldm/models/diffusion/memory_efficient_attention.py:766-782 | each op's `supports`, the combined op asking Flash under grad and then Cutlass without grad; `BaseSupports`, `CutlassSupports`, `FlashSupports` and `CombinedDtypes` give its meaning |
| AttentionDispatch.CutlassFwdFaster | ldm/models/diffusion/memory_efficient_attention.py:832-840 | `_is_cutlass_fwd_faster_than_flash`; `CutlassFasterCases` proves when it holds |
| AttentionDispatch.CutlassFasterCases | ldm/models/diffusion/memory_efficient_attention.py:832-840 | Cutlass's forward counts as faster when max(k, kv) is 128, or when batch × heads < 60 with at least 128 queries; with heads > 0 and a query length ≥ 0, only then |
| AttentionDispatch.PriorityList | ldm/models/diffusion/memory_efficient_attention.py:852-858 | the list ends with flash, cutlass, small-k, and the combined op is prepended exactly when grad is needed and Cutlass is faster |
| AttentionDispatch.Op | ldm/models/diffusion/memory_efficient_attention.py:842-862 | the loop returns the first supporting op of the priority list, or the no-operator error |
| AttentionDispatch.FirstSupporting | ldm/models/diffusion/memory_efficient_attention.py:859-862 | the first supporting op of a list; `FirstSupportingSpec` proves it supports the input, no earlier op does, and it fails exactly when none does |
| AttentionDispatch.Choose | ldm/models/diffusion/memory_efficient_attention.py:852-862 | the op that `op` selects; `ChoiceOrder`, `ChooseUnfolded` and the ensures of `Op` give its meaning |
| AttentionDispatch.FirstSupportingSpec | ldm/models/diffusion/memory_efficient_attention.py:859-862 | the search returns a supporting op with no supporting op before it, and fails exactly when no op in the list supports the input |
| AttentionDispatch.ChooseUnfolded | ldm/models/diffusion/memory_efficient_attention.py:852-862 | the choice spelled out as nested conditions over the four supports predicates |
| AttentionDispatch.NonCudaUsesSmallK | ldm/models/diffusion/memory_efficient_attention.py:184-188 | off CUDA only the small-k op can be chosen, and it is chosen exactly when it supports the input |
| AttentionDispatch.IndexedDeviceStringRejected | ldm/models/diffusion/memory_efficient_attention.py:186-188 | the device string `cuda:0` is in no op's device set, so no op is found |
| AttentionDispatch.Float32NeverUsesFlash | ldm/models/diffusion/memory_efficient_attention.py:766-782 | float32 is never dispatched to Flash, nor to the combined op when grad is needed |
| AttentionDispatch.ChoiceOrder | ldm/models/diffusion/memory_efficient_attention.py:852-862 | the combined op is chosen only when grad is needed and Cutlass is faster; Cutlass only when Flash does not support the input; small-k only when neither does |
| AttentionDispatch.CombinedDtypes | ldm/models/diffusion/memory_efficient_attention.py:766-782 | the combined op reads Cutlass's attributes: with grad it supports only its own dtypes, and without grad it agrees with Cutlass |
| AttentionDispatch.FromArguments | ldm/models/diffusion/memory_efficient_attention.py:864-904 | k, batch, the query length and the value's length (`kv_len` is `value.shape[1]`), and heads come from the shapes (one head for rank 3); kv -1 becomes k; dropout iff p > 0; custom scale iff given; grad iff any input needs it |
| AttentionDispatch.Unsqueeze2 | ldm/models/diffusion/memory_efficient_attention.py:991-994 | inserting a dimension of size 1 at position 2 keeps the others in place |
| AttentionDispatch.Prepare | ldm/models/diffusion/memory_efficient_attention.py:984-1016 | a query rank other than 3 or 4 raises ValueError; an empty value shape raises IndexError, and so does a rank-3 query whose key or value cannot be unsqueezed; the output shape is the query shape without its last dim plus the value's last dim; the no-grad path is taken exactly when no input needs grad; a given op is used as it is and then the shapes need nothing more; without one the value must have rank at least 2 |
| AttentionDispatch.DispatchedPlanIsSupported | ldm/models/diffusion/memory_efficient_attention.py:990-1004 | for a rank-3 or rank-4 query without a given op, a successful plan's op supports the dispatcher built from the (for rank 3, unsqueezed) shapes, whose head count is the query's third dim for rank 4 and one for rank 3, and the plan fails with NotImplementedError exactly when no op of the priority list supports it |

## Left out

- The pyparsing engine: combinator semantics, implicit whitespace skipping and `MatchFirst`/`Or`
  backtracking in both grammars. The parse actions and the lexical rule of the escaped word are
  modelled. Parsing a text is represented by the step `ParseText` or by the parameter `parse`.
- `PromptParser.__init__`, `parse`, `parse_prompt` and `make_cross_attention_substitute`: they are
  grammar construction and belong to the parser engine.
- `Blend.__eq__` and the `__repr__` methods: they compare and print rendered strings.
- The old grammar's node classes `Prompt`, `Conjunction`, `CrossAttentionControlSubstitute`,
  `Fragment`, `Attention` and `Blend` are not defined in `prompt_parser_old.py`. They are minimal constructors that carry their arguments, and no
  invariants are assumed for them.
- Floating point. Weights are exact reals: 1.1^n and 0.9^n are exact, and normalisation divides
  exactly. `str(float)` in the blend rewrite is the parameter `render`.
- The regex class `\d` is restricted to the ASCII digits, and `float` of a weight reads only
  those. Python's `\d` also matches the other Unicode decimal digits. Whitespace is not
  restricted: `\s`, `str.isspace()` and `str.strip()` all use Python's whitespace set
  (`PyStrings.IsSpace`).
- Tensor numerics: kernels, forward and backward, `prepare_inputs`, `LowerTriangularMask`, embedding
  weighting and mean correction, and the model's embedding calls. The calls are represented by the
  requests they are given.
- `WeightedClip.Forward`: the tensors themselves, the attention weighting after the loop and the
  transformer call are left out. The result says which path was taken and what the one batch item
  holds; an empty zip is `Weighted(None)`, which the transformer call would reject.
- `FlattenedPrompt` and `Conjunction`, which ldm/invoke/conditioning.py:15 imports from
  `prompt_parser.py`, are not defined in that file. `InvokeConditioning.Part` stands for them: a
  flattened prompt carries `(fragment, weight)` children, and a conjunction is the list of parts.
- The attribute mismatch of `blend.children`: ldm/invoke/conditioning.py:70 iterates
  `blend.children`, while the `Blend` of ldm/invoke/prompt_parser.py:43 stores its prompts in
  `prompts` and has no `children`, so with that class line 70 would raise AttributeError. The
  model's part `BlendOf(prompts, weights)` takes the blend's prompts to be the children that line
  iterates, assuming the blend class conditioning.py receives has them.
- `log_tokenization` and every `print`: output only.
- `load_textual_inversion` beyond the trigger-name rule: `torch.load`, picklescan, the `.bin`
  concepts-library format and the "more than one embedding" message.
- `TextualInversions.TextualInversionManager.AddTextualInversion`: `.half()` changes float
  precision only, so `fullPrecision` has no effect in the model. The traceback printing on
  ValueError is left out. The pad tokens already created before a failure stay in the tokenizer,
  as in the code; the contract states only that the records are unchanged.
- `TextualInversions.TextualInversionManager.CreatePadTokenIds` requires its pad strings to be
  distinct from each other and from the trigger. The only caller passes the numbered pad strings of
  a trigger, and `PadStringsDistinct` proves they are.
- `get_clip_token_id_for_string` in ldm/modules/embedding_manager.py is not part of this model. The
  token lookup is the test tokenizer's `convert_tokens_to_ids`.
- `TextualInversions.TriggerForCheckpoint`: `os.path.basename` follows POSIX paths (only `/`
  separates directories).
- `DummyClipEmbedder`: random position embeddings.
- `AttentionDispatch.FromArguments` requires a query rank of 3 or 4 and shapes of rank at least 2.
  The only caller passes unsqueezed rank-4 shapes, and lower ranks raise earlier in Python.
- The CUDA device capability (`torch.cuda.get_device_capability`) and the availability of the flash
  attention extension are inputs, the `Environment` record.
- Devices are a device string or a `torch.device` reduced to its type. An indexed string such as
  `cuda:0` is kept as a string, which is what the supports checks compare.
