/** The tokenizer and transformer stand-ins of tests/prompting_test_utils.py, on which the
    textual-inversion manager is modelled. */
module PromptingTestUtils {
  import opened Wrappers

  /** `KNOWN_WORDS`, whose token ids are their positions 0, 1, 2. */
  const KnownWords: seq<string> := ["a", "b", "c"]

  /** An entry of the embeddings list: the initial `0`, or an embedding row assigned to it. */
  datatype Slot = ZeroSlot | Row(values: seq<real>)

  /** `len(self.embeddings) > new_size` with nothing left to pop raises IndexError. */
  datatype ResizeError = PopFromEmptyList

  /** `DummyEmbeddingsList`: a list whose `num_embeddings` is its length and whose `weight`
      and `data` are the list itself. */
  class DummyEmbeddingsList {
    var items: seq<Slot>

    constructor (n: nat)
      ensures items == seq(n, _ => ZeroSlot)
    {
      items := seq(n, _ => ZeroSlot);
    }

    function NumEmbeddings(): (n: nat)
      reads this
      ensures n == |items|
    {
      |items|
    }

    /** `weight` and `data` alias the list. */
    function Weight(): (r: DummyEmbeddingsList)
      ensures r == this
    {
      this
    }

    function Data(): (r: DummyEmbeddingsList)
      ensures r == this
    {
      this
    }

    /** `pop(-1)`. */
    method Pop()
      requires |items| > 0
      modifies this
      ensures items == old(items)[..|old(items)| - 1]
    {
      items := items[..|items| - 1];
    }

    /** `append(0)`. */
    method AppendZero()
      modifies this
      ensures items == old(items) + [ZeroSlot]
    {
      items := items + [ZeroSlot];
    }

    /** `self[i] = row`, for an index the caller has checked. */
    method Assign(i: nat, row: seq<real>)
      requires i < |items|
      modifies this
      ensures items == old(items)[i := Row(row)]
    {
      items := items[i := Row(row)];
    }
  }

  /** The list `resize_token_embeddings(n)` leaves for n >= 0: the first min(old, n) entries,
      then zeros up to n. */
  function Resized(items: seq<Slot>, n: nat): (r: seq<Slot>)
    ensures |r| == n
    ensures forall i :: 0 <= i < n && i < |items| ==> r[i] == items[i]
    ensures forall i :: |items| <= i < n ==> r[i] == ZeroSlot
  {
    if n <= |items| then items[..n] else items + seq(n - |items|, _ => ZeroSlot)
  }

  /** `DummyTransformer`: it owns one embeddings list of one zero per known word. */
  class DummyTransformer {
    const embeddings: DummyEmbeddingsList

    constructor ()
      ensures fresh(embeddings) && embeddings.items == [ZeroSlot, ZeroSlot, ZeroSlot]
    {
      embeddings := new DummyEmbeddingsList(|KnownWords|);
    }

    function GetInputEmbeddings(): (r: DummyEmbeddingsList)
      ensures r == embeddings
    {
      embeddings
    }

    /** `resize_token_embeddings(new_size)`: with no size, the list itself, unchanged; with a
        size, entries are popped from the end or zeros appended until the length is the size.
        A negative size pops every entry and then fails. */
    method ResizeTokenEmbeddings(newSize: Option<int>) returns (r: Result<Option<DummyEmbeddingsList>, ResizeError>)
      modifies embeddings
      ensures newSize.None? ==> r == Ok(Some(embeddings)) && embeddings.items == old(embeddings.items)
      ensures newSize.Some? && newSize.value >= 0 ==>
        r == Ok(None) && embeddings.items == Resized(old(embeddings.items), newSize.value)
      ensures newSize.Some? && newSize.value < 0 ==> r == Err(PopFromEmptyList) && embeddings.items == []
    {
      if newSize.None? {
        return Ok(Some(embeddings));
      }
      var n := newSize.value;
      while |embeddings.items| > n
        invariant |embeddings.items| >= n || embeddings.items == old(embeddings.items)
        invariant embeddings.items == old(embeddings.items)[..|embeddings.items|]
        decreases |embeddings.items|
      {
        if |embeddings.items| == 0 {
          return Err(PopFromEmptyList);
        }
        embeddings.Pop();
      }
      while |embeddings.items| < n
        invariant |embeddings.items| <= n
        invariant |old(embeddings.items)| >= n ==> embeddings.items == old(embeddings.items)[..n]
        invariant |old(embeddings.items)| < n ==> |embeddings.items| >= |old(embeddings.items)|
        invariant |old(embeddings.items)| < n ==>
          embeddings.items == old(embeddings.items) + seq(|embeddings.items| - |old(embeddings.items)|, _ => ZeroSlot)
        decreases n - |embeddings.items|
      {
        embeddings.AppendZero();
      }
      return Ok(None);
    }
  }

  /** `DummyTokenizer`: a growing vocabulary whose ids are positions, with CLIP's special ids. */
  class DummyTokenizer {
    var tokens: seq<string>
    const bosTokenId: int := 49406
    const eosTokenId: int := 49407
    const padTokenId: int := 49407
    const unkTokenId: int := 49407

    constructor ()
      ensures tokens == KnownWords
    {
      tokens := KnownWords;
    }

    /** `convert_tokens_to_ids(s)`: the position of the first occurrence of `s`, or the unknown
        id when `s` is not in the vocabulary. */
    function ConvertTokensToIds(s: string): (id: int)
      reads this
      ensures s !in tokens ==> id == unkTokenId
      ensures s in tokens ==> 0 <= id < |tokens| && tokens[id] == s && s !in tokens[..id]
    {
      FirstIndex(tokens, s)
    }

    /** `add_tokens(s)`: 0 and no change for a known token, otherwise 1 and `s` appended. */
    method AddTokens(s: string) returns (added: nat)
      modifies this
      ensures s in old(tokens) ==> added == 0 && tokens == old(tokens)
      ensures s !in old(tokens) ==> added == 1 && tokens == old(tokens) + [s]
    {
      if s in tokens {
        return 0;
      }
      tokens := tokens + [s];
      return 1;
    }
  }

  /** `xs.index(s)` with the `ValueError` turned into the unknown id 49407. */
  function FirstIndex(xs: seq<string>, s: string): (id: int)
    ensures s !in xs ==> id == 49407
    ensures s in xs ==> 0 <= id < |xs| && xs[id] == s && s !in xs[..id]
    decreases |xs|
  {
    if |xs| == 0 then 49407
    else if xs[0] == s then 0
    else
      var k := FirstIndex(xs[1..], s);
      if s in xs[1..] then
        assert xs[..k + 1] == [xs[0]] + xs[1..][..k];
        k + 1
      else
        assert s !in xs;
        49407
  }

  /** The initial vocabulary: the known words have ids 0, 1, 2 and any other word is unknown. */
  lemma KnownWordIds(w: string)
    ensures FirstIndex(KnownWords, "a") == 0 && FirstIndex(KnownWords, "b") == 1 && FirstIndex(KnownWords, "c") == 2
    ensures w !in KnownWords ==> FirstIndex(KnownWords, w) == 49407
  {
    assert KnownWords[1..] == ["b", "c"];
    assert KnownWords[1..][1..] == ["c"];
  }

  /** After `add_tokens(s)` the token's id is its position in the vocabulary, and no id that
      was already assigned changes. */
  lemma AddedTokenId(old_tokens: seq<string>, s: string, w: string)
    requires s !in old_tokens
    ensures FirstIndex(old_tokens + [s], s) == |old_tokens|
    ensures w in old_tokens ==> FirstIndex(old_tokens + [s], w) == FirstIndex(old_tokens, w)
  {
    var t := old_tokens + [s];
    assert t[..|old_tokens|] == old_tokens;
  }
}
