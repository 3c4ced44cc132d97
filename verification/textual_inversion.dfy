/** The textual-inversion registry of ldm/modules/textual_inversion_manager.py, over the
    tokenizer and transformer stand-ins of the test utilities. */
module TextualInversions {
  import opened Wrappers
  import opened PyStrings
  import opened PromptingTestUtils

  /** An embedding tensor, by rank: a 0-d scalar, a 1-d vector, a 2-d `[V, token_dim]` matrix,
      or anything of higher rank. */
  datatype Tensor = Scalar(x: real) | Vector(values: seq<real>) | Matrix(rows: seq<seq<real>>) | HigherRank(rank: nat)

  function Rank(t: Tensor): nat
  {
    match t
    case Scalar(_) => 0
    case Vector(_) => 1
    case Matrix(_) => 2
    case HigherRank(r) => if r > 2 then r else 3
  }

  /** A registered textual inversion; its embedding is kept as the rows of the `[V, token_dim]`
      matrix. */
  datatype TextualInversion = TextualInversion(
    triggerString: string, triggerTokenId: int, padTokenIds: seq<int>, embedding: seq<seq<real>>)

  /** `embedding_vector_length`: V, the first dimension of the embedding. */
  function EmbeddingVectorLength(ti: TextualInversion): (v: nat)
    ensures RecordValid(ti) ==> v == |ti.padTokenIds| + 1
  {
    |ti.embedding|
  }

  /** The exceptions the manager raises or lets through. */
  datatype ManagerError = ValueError | IndexError | RuntimeError | StopIteration

  /** The name of the i-th pad token of a trigger. */
  function PadTokenString(trigger: string, i: nat): string
  {
    trigger + "-!pad-" + NatToString(i)
  }

  /** `pad_token_strings`: one per row after the first, numbered from 1. */
  function PadTokenStrings(trigger: string, v: nat): (r: seq<string>)
    ensures |r| == if v == 0 then 0 else v - 1
    ensures forall i :: 0 <= i < |r| ==> r[i] == PadTokenString(trigger, i + 1)
  {
    seq(if v == 0 then 0 else v - 1, i requires 0 <= i => PadTokenString(trigger, i + 1))
  }

  /** A record the manager can hold: one pad id per row after the first. */
  predicate RecordValid(ti: TextualInversion)
  {
    |ti.embedding| >= 1 && |ti.padTokenIds| == |ti.embedding| - 1
  }

  /** Well-formed records with distinct trigger strings. */
  predicate RecordsValid(tis: seq<TextualInversion>)
  {
    (forall i :: 0 <= i < |tis| ==> RecordValid(tis[i])) &&
    (forall i, j :: 0 <= i < j < |tis| ==> tis[i].triggerString != tis[j].triggerString)
  }

  /** Appending a well-formed record with a new trigger string keeps the records valid. */
  lemma RecordsAppend(tis: seq<TextualInversion>, ti: TextualInversion)
    requires RecordsValid(tis) && RecordValid(ti)
    requires forall i :: 0 <= i < |tis| ==> tis[i].triggerString != ti.triggerString
    ensures RecordsValid(tis + [ti])
  {
  }

  /** Index of the first record with this trigger string. */
  function FindByTrigger(tis: seq<TextualInversion>, s: string): (r: Option<nat>)
    ensures r.Some? ==> r.value < |tis| && tis[r.value].triggerString == s
    ensures r.Some? ==> forall j :: 0 <= j < r.value ==> tis[j].triggerString != s
    ensures r.None? ==> forall j :: 0 <= j < |tis| ==> tis[j].triggerString != s
    decreases |tis|
  {
    if |tis| == 0 then None
    else if tis[0].triggerString == s then Some(0)
    else match FindByTrigger(tis[1..], s) case None => None case Some(k) => Some(k + 1)
  }

  /** Index of the first record with this trigger token id. */
  function FindByTokenId(tis: seq<TextualInversion>, id: int): (r: Option<nat>)
    ensures r.Some? ==> r.value < |tis| && tis[r.value].triggerTokenId == id
    ensures r.Some? ==> forall j :: 0 <= j < r.value ==> tis[j].triggerTokenId != id
    ensures r.None? ==> forall j :: 0 <= j < |tis| ==> tis[j].triggerTokenId != id
    decreases |tis|
  {
    if |tis| == 0 then None
    else if tis[0].triggerTokenId == id then Some(0)
    else match FindByTokenId(tis[1..], id) case None => None case Some(k) => Some(k + 1)
  }

  /** The trigger string of a `.pt` checkpoint: its file name without the last extension,
      `'.'.join(filename.split('.')[:-1])`, so a name without a dot gives the empty string. */
  function TriggerFromFilename(filename: string): string
  {
    var parts := Split('.', filename);
    Join(".", parts[..|parts| - 1])
  }

  /** `os.path.basename`: what follows the last `/`. */
  function Basename(path: string): (r: string)
    ensures '/' !in r
    ensures '/' !in path ==> r == path
  {
    var parts := Split('/', path);
    SplitPieces('/', path);
    if '/' !in path then SplitNoSeparator('/', path); parts[|parts| - 1]
    else parts[|parts| - 1]
  }

  function TriggerForCheckpoint(path: string): string
  {
    TriggerFromFilename(Basename(path))
  }

  /** The trigger name is the file name with its last extension removed. */
  lemma TriggerDropsLastExtension(name: string, ext: string)
    requires '.' !in ext
    ensures TriggerFromFilename(name + "." + ext) == name
  {
    SplitAround('.', name, ext);
    SplitNoSeparator('.', ext);
    var parts := Split('.', name + "." + ext);
    assert parts[..|parts| - 1] == Split('.', name);
    JoinSplit('.', name);
  }

  /** A file name without a dot gives the empty trigger. */
  lemma TriggerWithoutDot(name: string)
    requires '.' !in name
    ensures TriggerFromFilename(name) == ""
  {
    SplitNoSeparator('.', name);
  }

  /** The directories of a checkpoint path do not reach its trigger. */
  lemma TriggerIgnoresDirectory(dir: string, name: string, ext: string)
    requires '/' !in name + "." + ext && '.' !in ext
    ensures TriggerForCheckpoint(dir + "/" + name + "." + ext) == name
  {
    var file := name + "." + ext;
    assert dir + "/" + name + "." + ext == dir + ['/'] + file;
    SplitAround('/', dir, file);
    SplitNoSeparator('/', file);
    TriggerDropsLastExtension(name, ext);
  }

  /** Appending a new token to the vocabulary keeps every id already in use. */
  lemma IdsStable(oldTokens: seq<string>, newTokens: seq<string>, s: string, w: string)
    requires newTokens == oldTokens || (s !in oldTokens && newTokens == oldTokens + [s])
    requires FirstIndex(oldTokens, w) != 49407
    ensures FirstIndex(newTokens, w) == FirstIndex(oldTokens, w)
  {
    if newTokens != oldTokens {
      AddedTokenId(oldTokens, s, w);
    }
  }

  /** Distinct pad indices give distinct pad strings, and no pad string is the trigger. */
  lemma PadStringsDistinct(trigger: string, v: nat)
    ensures var ps := PadTokenStrings(trigger, v);
      (forall j, k :: 0 <= j < k < |ps| ==> ps[j] != ps[k]) && (forall j :: 0 <= j < |ps| ==> ps[j] != trigger)
  {
    var ps := PadTokenStrings(trigger, v);
    forall j, k | 0 <= j < k < |ps|
      ensures ps[j] != ps[k]
    {
      if ps[j] == ps[k] {
        var prefix := trigger + "-!pad-";
        assert ps[j] == prefix + NatToString(j + 1) && ps[k] == prefix + NatToString(k + 1);
        assert NatToString(j + 1) == ps[j][|prefix|..];
        assert NatToString(k + 1) == ps[k][|prefix|..];
        NatToStringInjective(j + 1, k + 1);
      }
    }
    forall j | 0 <= j < |ps|
      ensures ps[j] != trigger
    {
      assert |ps[j]| > |trigger|;
    }
  }

  /** The vocabulary after adding each string in turn: a string not yet present is appended. */
  function WithTokens(tokens: seq<string>, ss: seq<string>): (r: seq<string>)
    ensures |tokens| <= |r| <= |tokens| + |ss| && r[..|tokens|] == tokens
    decreases |ss|
  {
    if |ss| == 0 then tokens
    else
      var before := WithTokens(tokens, ss[..|ss| - 1]);
      if ss[|ss| - 1] in before then before else before + [ss[|ss| - 1]]
  }

  /** Every added string ends up in the vocabulary. */
  lemma {:induction false} WithTokensContains(tokens: seq<string>, ss: seq<string>)
    ensures forall j :: 0 <= j < |ss| ==> ss[j] in WithTokens(tokens, ss)
    decreases |ss|
  {
    if |ss| > 0 {
      var n := |ss| - 1;
      WithTokensContains(tokens, ss[..n]);
      forall j | 0 <= j < n
        ensures ss[j] in WithTokens(tokens, ss)
      {
        assert ss[..n][j] == ss[j];
      }
    }
  }

  lemma WithTokensSnoc(tokens: seq<string>, ss: seq<string>, i: nat)
    requires i < |ss|
    ensures var before := WithTokens(tokens, ss[..i]);
      WithTokens(tokens, ss[..i + 1]) == if ss[i] in before then before else before + [ss[i]]
  {
    assert ss[..i + 1][..i] == ss[..i];
  }

  /** Adding two lists of strings one after the other adds their concatenation. */
  lemma {:induction false} WithTokensAppend(tokens: seq<string>, a: seq<string>, b: seq<string>)
    ensures WithTokens(WithTokens(tokens, a), b) == WithTokens(tokens, a + b)
    decreases |b|
  {
    if |b| == 0 {
      assert a + b == a;
    } else {
      var n := |b| - 1;
      WithTokensAppend(tokens, a, b[..n]);
      assert (a + b)[..|a + b| - 1] == a + b[..n];
      assert (a + b)[|a + b| - 1] == b[n];
    }
  }

  /** `ids` are the known vocabulary ids of `ss`, one for one. */
  predicate IdsOf(tokens: seq<string>, ids: seq<int>, ss: seq<string>)
  {
    |ids| == |ss| && forall j :: 0 <= j < |ss| ==> ids[j] == FirstIndex(tokens, ss[j]) != 49407
  }

  /** Adding a string that is not among `ss` keeps their ids, and its own id is a new one. */
  lemma IdsOfStep(tokens: seq<string>, next: seq<string>, s: string, ids: seq<int>, ss: seq<string>, id: int)
    requires next == WithTokens(tokens, [s])
    requires IdsOf(tokens, ids, ss) && s !in ss
    requires id == FirstIndex(next, s) != 49407
    ensures IdsOf(next, ids + [id], ss + [s]) && id !in ids
  {
    assert [s][..0] == [];
    forall j | 0 <= j < |ss|
      ensures FirstIndex(next, ss[j]) == ids[j] != id
    {
      IdsStable(tokens, next, s, ss[j]);
      assert next[ids[j]] == ss[j];
    }
  }

  /** One more string of a list of distinct strings is not among the earlier ones. */
  lemma PrefixSnoc(ss: seq<string>, i: nat)
    requires i < |ss| && forall j, k :: 0 <= j < k < |ss| ==> ss[j] != ss[k]
    ensures ss[..i + 1] == ss[..i] + [ss[i]] && ss[i] !in ss[..i]
  {
  }

  lemma SliceSnoc(rows: seq<seq<real>>, lo: nat, hi: nat)
    requires lo <= hi < |rows|
    ensures rows[lo..hi] + [rows[hi]] == rows[lo..hi + 1]
  {
  }

  /** Each id of `ids` is an index of `items` holding the matching row. */
  predicate RowsAt(items: seq<Slot>, ids: seq<int>, rows: seq<seq<real>>)
  {
    |ids| == |rows| && forall j :: 0 <= j < |ids| ==> 0 <= ids[j] < |items| && items[ids[j]] == Row(rows[j])
  }

  /** The embeddings list grew, and every entry outside `written` is the old one, or a zero
      past the old end. */
  predicate KeepsOthers(before: seq<Slot>, after: seq<Slot>, written: seq<int>)
  {
    |after| >= |before| &&
    forall k :: 0 <= k < |after| && k !in written ==> after[k] == (if k < |before| then before[k] else ZeroSlot)
  }

  /** One more row written after growing the list: it joins the written ids, and every other
      entry, the `keep` entry included, stays. */
  lemma WriteStep(i0: seq<Slot>, before: seq<Slot>, n: nat, p: int, row: seq<real>, ids: seq<int>, rows: seq<seq<real>>, keep: int)
    requires |before| <= n && 0 <= p < n && p !in ids && 0 <= keep < |before| && keep != p
    requires KeepsOthers(i0, before, ids) && RowsAt(before, ids, rows)
    ensures var after := Resized(before, n)[p := Row(row)];
      KeepsOthers(i0, after, ids + [p]) && RowsAt(after, ids + [p], rows + [row]) && after[keep] == before[keep]
  {
  }

  /** The trigger's row, then the pad rows: together the rows of the whole embedding, and
      nothing else written. */
  lemma ComposeWrites(i0: seq<Slot>, i1: seq<Slot>, i2: seq<Slot>, t: int, pads: seq<int>, rows: seq<seq<real>>)
    requires |rows| >= 1
    requires KeepsOthers(i0, i1, [t]) && 0 <= t < |i1| && i1[t] == Row(rows[0])
    requires KeepsOthers(i1, i2, pads) && i2[t] == i1[t] && RowsAt(i2, pads, rows[1..])
    ensures RowsAt(i2, [t] + pads, rows) && KeepsOthers(i0, i2, [t] + pads)
  {
    assert rows == [rows[0]] + rows[1..];
  }

  /** The state of the pad-token loop after the strings `ss`: the vocabulary gained them, the
      trigger kept its id and its row, `ids` are their ids, holding the rows `rs`, and no other
      entry of the embeddings list was written. */
  predicate PadState(tokens0: seq<string>, items0: seq<Slot>, tokens: seq<string>, items: seq<Slot>,
                     trigger: string, triggerId: int, ss: seq<string>, ids: seq<int>, rs: seq<seq<real>>)
  {
    |items| == |tokens| &&
    FirstIndex(tokens, trigger) == triggerId != 49407 && 0 <= triggerId < |items0| && items[triggerId] == items0[triggerId] &&
    tokens == WithTokens(tokens0, ss) && IdsOf(tokens, ids, ss) &&
    RowsAt(items, ids, rs) && KeepsOthers(items0, items, ids)
  }

  /** One pad string more: its id is new, and its row is written after the list grew. */
  lemma PadStateStep(tokens0: seq<string>, items0: seq<Slot>, tokens: seq<string>, items: seq<Slot>,
                     trigger: string, triggerId: int, ss: seq<string>, ids: seq<int>, rs: seq<seq<real>>,
                     s: string, row: seq<real>, next: seq<string>, id: int)
    requires PadState(tokens0, items0, tokens, items, trigger, triggerId, ss, ids, rs)
    requires s !in ss && s != trigger
    requires next == WithTokens(tokens, [s]) && id == FirstIndex(next, s) != 49407
    ensures PadState(tokens0, items0, next, Resized(items, |next|)[id := Row(row)], trigger, triggerId, ss + [s], ids + [id], rs + [row])
  {
    assert [s][..0] == [];
    IdsStable(tokens, next, s, trigger);
    IdsOfStep(tokens, next, s, ids, ss, id);
    assert next[id] == s && next[triggerId] == trigger;
    WriteStep(items0, items, |next|, id, row, ids, rs, triggerId);
    WithTokensAppend(tokens0, ss, [s]);
  }

  /** `TextualInversionManager`: the registered records and the CLIP embedder's tokenizer and
      transformer, whose vocabulary and embeddings list grow together. */
  class TextualInversionManager {
    var textualInversions: seq<TextualInversion>
    const tokenizer: DummyTokenizer
    const transformer: DummyTransformer
    const fullPrecision: bool

    /** One embedding per vocabulary entry, well-formed records, distinct trigger strings. */
    predicate Valid()
      reads this, tokenizer, transformer, transformer.embeddings
    {
      |transformer.embeddings.items| == |tokenizer.tokens| && RecordsValid(textualInversions)
    }

    constructor (tokenizer: DummyTokenizer, transformer: DummyTransformer, fullPrecision: bool)
      requires |transformer.embeddings.items| == |tokenizer.tokens|
      ensures Valid() && textualInversions == []
      ensures this.tokenizer == tokenizer && this.transformer == transformer && this.fullPrecision == fullPrecision
    {
      this.tokenizer := tokenizer;
      this.transformer := transformer;
      this.fullPrecision := fullPrecision;
      textualInversions := [];
    }

    /** `get_all_trigger_strings`. */
    function TriggerStrings(): (r: seq<string>)
      reads this
      ensures |r| == |textualInversions|
      ensures forall i :: 0 <= i < |r| ==> r[i] == textualInversions[i].triggerString
    {
      seq(|textualInversions|, i requires 0 <= i < |textualInversions| reads this => textualInversions[i].triggerString)
    }

    /** `get_textual_inversion_for_trigger_string`: the first record with that trigger, or
        StopIteration. */
    function GetTextualInversionForTriggerString(s: string): (r: Result<TextualInversion, ManagerError>)
      reads this
      ensures r.Ok? <==> s in TriggerStrings()
      ensures r.Ok? ==> r.value.triggerString == s && r.value in textualInversions
      ensures r.Err? ==> r.error == StopIteration
    {
      match FindByTrigger(textualInversions, s)
      case None => Err(StopIteration)
      case Some(k) => Ok(textualInversions[k])
    }

    /** `has_textual_inversion_for_trigger_string`. */
    predicate HasTextualInversionForTriggerString(s: string)
      reads this
      ensures HasTextualInversionForTriggerString(s) <==>
        exists i :: 0 <= i < |textualInversions| && textualInversions[i].triggerString == s
    {
      GetTextualInversionForTriggerString(s).Ok?
    }

    /** `get_textual_inversion_for_token_id`: the first record with that trigger id, or
        StopIteration. */
    function GetTextualInversionForTokenId(id: int): (r: Result<TextualInversion, ManagerError>)
      reads this
      ensures r.Ok? <==> exists i :: 0 <= i < |textualInversions| && textualInversions[i].triggerTokenId == id
      ensures r.Ok? ==> r.value.triggerTokenId == id && r.value in textualInversions
      ensures r.Ok? ==> exists i :: (0 <= i < |textualInversions| && textualInversions[i] == r.value &&
                                      forall j :: 0 <= j < i ==> textualInversions[j].triggerTokenId != id)
      ensures r.Err? ==> r.error == StopIteration
    {
      match FindByTokenId(textualInversions, id)
      case None => Err(StopIteration)
      case Some(k) => Ok(textualInversions[k])
    }

    /** `_create_token_id_and_assign_embedding`: a token that maps to the unknown id is added
        to the vocabulary, and the embeddings list grows by the number added; the token's id
        must then be known, and its embedding row is assigned. */
    method CreateTokenIdAndAssignEmbedding(tokenStr: string, e: Tensor) returns (r: Result<int, ManagerError>)
      requires |transformer.embeddings.items| == |tokenizer.tokens|
      modifies tokenizer, transformer.embeddings
      ensures |transformer.embeddings.items| == |tokenizer.tokens|
      ensures !e.Vector? ==> r == Err(ValueError) && unchanged(tokenizer, transformer.embeddings)
      ensures e.Vector? && old(tokenizer.ConvertTokensToIds(tokenStr)) == tokenizer.unkTokenId && tokenStr !in old(tokenizer.tokens)
        ==> tokenizer.tokens == old(tokenizer.tokens) + [tokenStr]
      ensures !(old(tokenizer.ConvertTokensToIds(tokenStr)) == tokenizer.unkTokenId && tokenStr !in old(tokenizer.tokens))
        ==> tokenizer.tokens == old(tokenizer.tokens)
      ensures e.Vector? ==> (r.Err? <==> tokenizer.ConvertTokensToIds(tokenStr) == tokenizer.unkTokenId)
      ensures r.Err? && e.Vector? ==> r.error == RuntimeError
      ensures r.Ok? ==> r.value == tokenizer.ConvertTokensToIds(tokenStr) && 0 <= r.value < |tokenizer.tokens|
      ensures r.Ok? ==>
        transformer.embeddings.items == Resized(old(transformer.embeddings.items), |tokenizer.tokens|)[r.value := Row(e.values)]
      ensures r.Err? ==> transformer.embeddings.items == Resized(old(transformer.embeddings.items), |tokenizer.tokens|)
      ensures e.Vector? ==> tokenizer.tokens == WithTokens(old(tokenizer.tokens), [tokenStr])
      ensures e.Vector? && |old(tokenizer.tokens)| < tokenizer.unkTokenId ==> r.Ok?
    {
      if !e.Vector? {
        return Err(ValueError);
      }
      var existingTokenId := tokenizer.ConvertTokensToIds(tokenStr);
      if existingTokenId == tokenizer.unkTokenId {
        var numTokensAdded := tokenizer.AddTokens(tokenStr);
        var current := transformer.ResizeTokenEmbeddings(None);
        var currentTokenCount := current.value.value.NumEmbeddings();
        var newTokenCount := currentTokenCount + numTokensAdded;
        var _ := transformer.ResizeTokenEmbeddings(Some(newTokenCount));
      } else {
        assert Resized(transformer.embeddings.items, |tokenizer.tokens|) == transformer.embeddings.items;
      }
      var tokenId := tokenizer.ConvertTokensToIds(tokenStr);
      if tokenId == tokenizer.unkTokenId {
        return Err(RuntimeError);
      }
      transformer.GetInputEmbeddings().Weight().Data().Assign(tokenId, e.values);
      return Ok(tokenId);
    }

    /** The state after a successful add: the old records and one new record at the end, for
        this trigger, with the trigger's id, the embedding's rows, and one pad id per further
        row, each the tokenizer's id for its pad string. */
    predicate Added(before: seq<TextualInversion>, triggerStr: string, rows: seq<seq<real>>, triggerId: int)
      reads this, tokenizer
    {
      |textualInversions| == |before| + 1 && textualInversions[..|before|] == before &&
      var ti := textualInversions[|before|];
      ti.triggerString == triggerStr && ti.triggerTokenId == triggerId &&
      ti.triggerTokenId == tokenizer.ConvertTokensToIds(triggerStr) &&
      ti.embedding == rows &&
      IdsOf(tokenizer.tokens, ti.padTokenIds, PadTokenStrings(triggerStr, |rows|))
    }

    /** What a successful add wrote: the vocabulary gained the trigger and its pad strings
        (those not already known), the trigger's id holds the first row and the i-th pad id
        the row after it, and every other entry of the embeddings list is as it was, or a
        zero past the old end. */
    predicate Wrote(tokens0: seq<string>, items0: seq<Slot>, ti: TextualInversion)
      reads tokenizer, transformer, transformer.embeddings
    {
      var ids := [ti.triggerTokenId] + ti.padTokenIds;
      tokenizer.tokens == WithTokens(tokens0, [ti.triggerString] + PadTokenStrings(ti.triggerString, |ti.embedding|)) &&
      RowsAt(transformer.embeddings.items, ids, ti.embedding) &&
      KeepsOthers(items0, transformer.embeddings.items, ids)
    }

    /** The rows of an embedding of rank 1 or 2: a vector is one row. */
    function EmbeddingRows(embedding: Tensor): (rows: seq<seq<real>>)
      requires embedding.Vector? || embedding.Matrix?
      ensures embedding.Vector? ==> rows == [embedding.values]
      ensures embedding.Matrix? ==> rows == embedding.rows
    {
      if embedding.Vector? then [embedding.values] else embedding.rows
    }

    /** `add_textual_inversion`: a trigger already registered is refused with no change; a
        1-d embedding counts as one row and one of rank above 2 is rejected, as is a scalar or
        an empty matrix; otherwise the trigger and one pad token per further row get ids and
        rows, and one record is appended. It succeeds whenever the new ids stay below the
        unknown id. */
    method AddTextualInversion(triggerStr: string, embedding: Tensor) returns (r: Result<Option<int>, ManagerError>)
      requires Valid()
      modifies this, tokenizer, transformer.embeddings
      ensures Valid()
      ensures triggerStr in old(TriggerStrings()) ==> r == Ok(None) && textualInversions == old(textualInversions)
      ensures triggerStr in old(TriggerStrings()) ==> unchanged(tokenizer, transformer.embeddings)
      ensures triggerStr !in old(TriggerStrings()) && Rank(embedding) > 2 ==> r == Err(ValueError)
      ensures triggerStr !in old(TriggerStrings()) && (embedding.Scalar? || embedding == Matrix([])) ==> r == Err(IndexError)
      ensures r.Err? ==> textualInversions == old(textualInversions)
      ensures triggerStr !in old(TriggerStrings()) && r.Ok? ==>
        (embedding.Vector? || embedding.Matrix?) && r.value.Some? &&
        Added(old(textualInversions), triggerStr, EmbeddingRows(embedding), r.value.value) &&
        Wrote(old(tokenizer.tokens), old(transformer.embeddings.items), textualInversions[|textualInversions| - 1])
      ensures triggerStr !in old(TriggerStrings()) && (embedding.Vector? || (embedding.Matrix? && |embedding.rows| > 0)) ==>
        (|old(tokenizer.tokens)| + |EmbeddingRows(embedding)| <= tokenizer.unkTokenId ==> r.Ok?)
    {
      if triggerStr in TriggerStrings() {
        return Ok(None);
      }
      // `.half()` changes float precision only, which reals do not model.
      var rows: seq<seq<real>>;
      if embedding.Vector? {
        rows := [embedding.values];
      } else if Rank(embedding) > 2 {
        return Err(ValueError);
      } else if embedding.Scalar? {
        return Err(IndexError);
      } else {
        rows := embedding.rows;
      }
      if |rows| == 0 {
        return Err(IndexError);
      }
      var id := RegisterRows(triggerStr, rows);
      if id.Err? {
        return Err(id.error);
      }
      return Ok(Some(id.value));
    }

    /** The `try` block of `add_textual_inversion`: the trigger token takes the first row, the
        pad tokens the following ones, and the record is appended. Only the unknown id coming
        back for a new token (RuntimeError) stops it, which cannot happen while the new ids
        stay below the unknown id. */
    method RegisterRows(triggerStr: string, rows: seq<seq<real>>) returns (r: Result<int, ManagerError>)
      requires Valid() && triggerStr !in TriggerStrings() && |rows| >= 1
      modifies this, tokenizer, transformer.embeddings
      ensures Valid()
      ensures r.Err? ==> textualInversions == old(textualInversions) && r.error == RuntimeError
      ensures r.Ok? ==> Added(old(textualInversions), triggerStr, rows, r.value)
      ensures r.Ok? ==> Wrote(old(tokenizer.tokens), old(transformer.embeddings.items), textualInversions[|textualInversions| - 1])
      ensures |old(tokenizer.tokens)| + |rows| <= tokenizer.unkTokenId ==> r.Ok?
    {
      assert forall i :: 0 <= i < |textualInversions| ==> textualInversions[i].triggerString != triggerStr by {
        forall i | 0 <= i < |textualInversions|
          ensures textualInversions[i].triggerString != triggerStr
        {
          assert TriggerStrings()[i] == textualInversions[i].triggerString;
        }
      }
      var padTokenStrings := PadTokenStrings(triggerStr, |rows|);
      ghost var tokens0 := tokenizer.tokens;
      ghost var items0 := transformer.embeddings.items;
      var trigger := CreateTokenIdAndAssignEmbedding(triggerStr, Vector(rows[0]));
      if trigger.Err? {
        return Err(trigger.error);
      }
      ghost var items1 := transformer.embeddings.items;
      assert KeepsOthers(items0, items1, [trigger.value]);
      PadStringsDistinct(triggerStr, |rows|);
      var padTokenIds := CreatePadTokenIds(triggerStr, trigger.value, padTokenStrings, rows);
      if padTokenIds.Err? {
        return Err(padTokenIds.error);
      }
      WithTokensAppend(tokens0, [triggerStr], padTokenStrings);
      ComposeWrites(items0, items1, transformer.embeddings.items, trigger.value, padTokenIds.value, rows);
      var ti := TextualInversion(triggerStr, trigger.value, padTokenIds.value, rows);
      assert RecordValid(ti);
      RecordsAppend(textualInversions, ti);
      textualInversions := textualInversions + [ti];
      return Ok(trigger.value);
    }

    /** The list comprehension creating the pad tokens: one id per pad string, each the
        tokenizer's id for its string and holding the next row of the embedding, while the
        trigger keeps its id and its row. Every pad string is new unless already known, and
        the strings are distinct from each other and from the trigger, as the numbered pad
        strings of a trigger are. */
    method CreatePadTokenIds(trigger: string, triggerId: int, padTokenStrings: seq<string>, rows: seq<seq<real>>)
      returns (r: Result<seq<int>, ManagerError>)
      requires |rows| == |padTokenStrings| + 1
      requires |transformer.embeddings.items| == |tokenizer.tokens|
      requires tokenizer.ConvertTokensToIds(trigger) == triggerId != tokenizer.unkTokenId
      requires forall j, k :: 0 <= j < k < |padTokenStrings| ==> padTokenStrings[j] != padTokenStrings[k]
      requires forall j :: 0 <= j < |padTokenStrings| ==> padTokenStrings[j] != trigger
      modifies tokenizer, transformer.embeddings
      ensures |transformer.embeddings.items| == |tokenizer.tokens|
      ensures tokenizer.ConvertTokensToIds(trigger) == triggerId
      ensures 0 <= triggerId < |old(transformer.embeddings.items)| <= |transformer.embeddings.items|
      ensures transformer.embeddings.items[triggerId] == old(transformer.embeddings.items)[triggerId]
      ensures r.Ok? ==> IdsOf(tokenizer.tokens, r.value, padTokenStrings)
      ensures r.Ok? ==> tokenizer.tokens == WithTokens(old(tokenizer.tokens), padTokenStrings)
      ensures r.Ok? ==> RowsAt(transformer.embeddings.items, r.value, rows[1..])
      ensures r.Ok? ==> KeepsOthers(old(transformer.embeddings.items), transformer.embeddings.items, r.value)
      ensures r.Err? ==> r.error == RuntimeError
      ensures |old(tokenizer.tokens)| + |padTokenStrings| <= tokenizer.unkTokenId ==> r.Ok?
    {
      ghost var tokens0 := tokenizer.tokens;
      ghost var items0 := transformer.embeddings.items;
      var padTokenIds: seq<int> := [];
      for i := 0 to |padTokenStrings|
        invariant PadState(tokens0, items0, tokenizer.tokens, transformer.embeddings.items,
          trigger, triggerId, padTokenStrings[..i], padTokenIds, rows[1..1 + i])
      {
        ghost var before := tokenizer.tokens;
        ghost var itemsBefore := transformer.embeddings.items;
        var id := CreateTokenIdAndAssignEmbedding(padTokenStrings[i], Vector(rows[1 + i]));
        if id.Err? {
          IdsStable(before, tokenizer.tokens, padTokenStrings[i], trigger);
          return Err(id.error);
        }
        PrefixSnoc(padTokenStrings, i);
        PadStateStep(tokens0, items0, before, itemsBefore, trigger, triggerId, padTokenStrings[..i], padTokenIds,
          rows[1..1 + i], padTokenStrings[i], rows[1 + i], tokenizer.tokens, id.value);
        SliceSnoc(rows, 1, 1 + i);
        padTokenIds := padTokenIds + [id.value];
      }
      assert padTokenStrings[..|padTokenStrings|] == padTokenStrings;
      assert rows[1..1 + |padTokenStrings|] == rows[1..];
      return Ok(padTokenIds);
    }

    /** The pad ids that follow an id in the expanded prompt: those of the first record whose
        trigger it is, or none. */
    function PadsFor(id: int): seq<int>
      reads this
    {
      match FindByTokenId(textualInversions, id)
      case None => []
      case Some(k) => textualInversions[k].padTokenIds
    }

    /** Every id followed by its pad ids. */
    function Expanded(ids: seq<int>): (r: seq<int>)
      reads this
      ensures |r| >= |ids|
      ensures |r| == 0 <==> |ids| == 0
      decreases |ids|
    {
      if |ids| == 0 then [] else [ids[0]] + PadsFor(ids[0]) + Expanded(ids[1..])
    }

    /** `expand_textual_inversion_token_ids`: an empty list as it is; a list starting with bos
        or ending with eos is refused; otherwise a copy of the list, walked from the end, gets
        each trigger id's pad ids inserted right after it. */
    method ExpandTextualInversionTokenIds(promptTokenIds: seq<int>) returns (r: Result<seq<int>, ManagerError>)
      requires Valid()
      ensures |promptTokenIds| == 0 ==> r == Ok(promptTokenIds)
      ensures |promptTokenIds| > 0 && promptTokenIds[0] == tokenizer.bosTokenId ==> r == Err(ValueError)
      ensures |promptTokenIds| > 0 && promptTokenIds[|promptTokenIds| - 1] == tokenizer.eosTokenId ==> r == Err(ValueError)
      ensures (|promptTokenIds| > 0 && promptTokenIds[0] != tokenizer.bosTokenId &&
        promptTokenIds[|promptTokenIds| - 1] != tokenizer.eosTokenId) ==> r == Ok(Expanded(promptTokenIds))
    {
      if |promptTokenIds| == 0 {
        return Ok(promptTokenIds);
      }
      if promptTokenIds[0] == tokenizer.bosTokenId {
        return Err(ValueError);
      }
      if promptTokenIds[|promptTokenIds| - 1] == tokenizer.eosTokenId {
        return Err(ValueError);
      }
      var triggerTokenIds := seq(|textualInversions|, k requires 0 <= k < |textualInversions| reads this =>
        textualInversions[k].triggerTokenId);
      var ids := promptTokenIds;
      var i := |promptTokenIds|;
      while i > 0
        invariant 0 <= i <= |promptTokenIds|
        invariant ids == promptTokenIds[..i] + Expanded(promptTokenIds[i..])
      {
        i := i - 1;
        var tokenId := promptTokenIds[i];
        ExpandStep(promptTokenIds, i);
        SplitAtJoin(promptTokenIds[..i + 1], Expanded(promptTokenIds[i + 1..]));
        if tokenId in triggerTokenIds {
          var k := FindByTokenId(textualInversions, tokenId).value;
          var ti := textualInversions[k];
          assert RecordValid(ti);
          ids := InsertPads(ids, i + 1, ti, EmbeddingVectorLength(ti) - 1);
        } else {
          assert forall j :: 0 <= j < |textualInversions| ==> triggerTokenIds[j] == textualInversions[j].triggerTokenId;
          assert PadsFor(tokenId) == [];
        }
      }
      assert promptTokenIds[..0] + Expanded(promptTokenIds[0..]) == Expanded(promptTokenIds) by {
        assert promptTokenIds[0..] == promptTokenIds;
      }
      return Ok(ids);
    }

    /** One step of the backward walk: the suffix from `i` expands to `p[i]`, its pad ids and
        the expanded rest. */
    lemma ExpandStep(p: seq<int>, i: nat)
      requires i < |p|
      ensures |p[..i + 1]| == i + 1
      ensures p[..i] + Expanded(p[i..]) == p[..i + 1] + PadsFor(p[i]) + Expanded(p[i + 1..])
    {
      assert p[i..][1..] == p[i + 1..];
      assert p[..i + 1] == p[..i] + [p[i]];
    }

    lemma SplitAtJoin(a: seq<int>, b: seq<int>)
      ensures (a + b)[..|a|] == a && (a + b)[|a|..] == b
    {
    }

    /** The inner loop of the expansion: `ids.insert(at + pad_idx, pad_token_ids[pad_idx])` for
        each pad index in turn. */
    method InsertPads(ids: seq<int>, at: nat, ti: TextualInversion, count: nat) returns (r: seq<int>)
      requires at <= |ids| && count == |ti.padTokenIds|
      ensures r == ids[..at] + ti.padTokenIds + ids[at..]
    {
      r := ids;
      for padIdx := 0 to count
        invariant r == ids[..at] + ti.padTokenIds[..padIdx] + ids[at..]
      {
        var pos := at + padIdx;
        r := r[..pos] + [ti.padTokenIds[padIdx]] + r[pos..];
        assert ti.padTokenIds[..padIdx + 1] == ti.padTokenIds[..padIdx] + [ti.padTokenIds[padIdx]];
      }
      assert ti.padTokenIds[..count] == ti.padTokenIds;
    }

    /** Expansion works piece by piece. */
    lemma {:induction false} ExpandedAppend(a: seq<int>, b: seq<int>)
      ensures Expanded(a + b) == Expanded(a) + Expanded(b)
      decreases |a|
    {
      if |a| == 0 {
        assert a + b == b;
      } else {
        assert (a + b)[1..] == a[1..] + b;
        ExpandedAppend(a[1..], b);
      }
    }

    /** The number of pad ids the trigger occurrences in `ids` add: V - 1 for each. */
    function PadCount(ids: seq<int>): int
      reads this
      decreases |ids|
    {
      if |ids| == 0 then 0
      else
        (match FindByTokenId(textualInversions, ids[|ids| - 1])
         case None => 0
         case Some(k) => EmbeddingVectorLength(textualInversions[k]) as int - 1) + PadCount(ids[..|ids| - 1])
    }

    /** The expanded list is as long as the input plus V - 1 per trigger occurrence. */
    lemma {:induction false} ExpandedLength(ids: seq<int>)
      requires Valid()
      ensures |Expanded(ids)| == |ids| + PadCount(ids)
      decreases |ids|
    {
      if |ids| > 0 {
        var init := ids[..|ids| - 1];
        var last := ids[|ids| - 1];
        assert ids == init + [last];
        ExpandedAppend(init, [last]);
        ExpandedLength(init);
        assert [last][1..] == [];
        match FindByTokenId(textualInversions, last)
        case None =>
        case Some(k) =>
          assert RecordValid(textualInversions[k]);
      }
    }

    /** Where the i-th input id lands: after every earlier id and its pad ids. */
    function Position(ids: seq<int>, i: nat): nat
      requires i <= |ids|
      reads this
    {
      |Expanded(ids[..i])|
    }

    /** Each input id appears at its position, in order, immediately followed by its pad ids;
        the next input id comes right after them. */
    lemma ExpandedPlacement(ids: seq<int>, i: nat)
      requires i < |ids|
      ensures Position(ids, i) + 1 + |PadsFor(ids[i])| == Position(ids, i + 1) <= |Expanded(ids)|
      ensures Expanded(ids)[Position(ids, i)] == ids[i]
      ensures Expanded(ids)[Position(ids, i) + 1..Position(ids, i + 1)] == PadsFor(ids[i])
    {
      var pre := Expanded(ids[..i]);
      var here := [ids[i]] + PadsFor(ids[i]);
      var post := Expanded(ids[i + 1..]);
      ExpandedAround(ids, i);
      ExpandedPrefixStep(ids, i);
      ThreePieces(pre, here, post);
    }

    /** The expansion of ids around position i. */
    lemma ExpandedAround(ids: seq<int>, i: nat)
      requires i < |ids|
      ensures Expanded(ids) == Expanded(ids[..i]) + ([ids[i]] + PadsFor(ids[i])) + Expanded(ids[i + 1..])
    {
      var rest := ids[i..];
      assert ids == ids[..i] + rest;
      ExpandedAppend(ids[..i], rest);
      assert rest[0] == ids[i] && rest[1..] == ids[i + 1..];
      assert Expanded(rest) == [ids[i]] + PadsFor(ids[i]) + Expanded(ids[i + 1..]);
      AppendAssoc(Expanded(ids[..i]), [ids[i]] + PadsFor(ids[i]), Expanded(ids[i + 1..]));
    }

    lemma AppendAssoc(a: seq<int>, b: seq<int>, c: seq<int>)
      ensures a + (b + c) == a + b + c
    {
    }

    lemma ExpandedPrefixStep(ids: seq<int>, i: nat)
      requires i < |ids|
      ensures Expanded(ids[..i + 1]) == Expanded(ids[..i]) + ([ids[i]] + PadsFor(ids[i]))
    {
      assert ids[..i + 1] == ids[..i] + [ids[i]];
      ExpandedAppend(ids[..i], [ids[i]]);
      assert [ids[i]][1..] == [];
    }

    lemma ThreePieces(pre: seq<int>, here: seq<int>, post: seq<int>)
      requires |here| > 0
      ensures (pre + here + post)[|pre|] == here[0]
      ensures (pre + here + post)[|pre| + 1..|pre + here|] == here[1..]
    {
    }

    /** Ids that trigger nothing are left exactly as they are. */
    lemma {:induction false} ExpandedWithoutTriggers(ids: seq<int>)
      requires forall i :: 0 <= i < |ids| ==> GetTextualInversionForTokenId(ids[i]).Err?
      ensures Expanded(ids) == ids
      decreases |ids|
    {
      if |ids| > 0 {
        var tail := ids[1..];
        forall i | 0 <= i < |tail|
          ensures GetTextualInversionForTokenId(tail[i]).Err?
        {
          assert tail[i] == ids[i + 1];
        }
        ExpandedWithoutTriggers(tail);
        assert GetTextualInversionForTokenId(ids[0]).Err?;
        assert PadsFor(ids[0]) == [];
        assert ids == [ids[0]] + tail;
      }
    }
  }
}
