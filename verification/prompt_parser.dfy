/** The node types of the current prompt grammar, their equality, the attention
    parse actions and the fusion of adjacent text fragments. */
module PromptParser {
  import opened Wrappers
  import opened PyStrings

  /** A parsed prompt item. The `fragment` of `Attention` and `CFGScale` is plain text. */
  datatype Node =
    | Fragment(text: string)
    | Attention(weight: real, fragment: string)
    | CFGScale(scaleFactor: real, fragment: string)

  /** `ParsingException` raised by `Blend` construction. */
  datatype ParsingException = MismatchedPromptWeightCounts

  /** `__eq__` of the three node classes: same class, then field comparison. */
  predicate PyEq(self: Node, other: Node)
  {
    match self
    case Fragment(t) => other.Fragment? && other.text == t
    case Attention(w, f) => other.Attention? && other.weight == w && other.fragment == f
    case CFGScale(s, f) => other.CFGScale? && other.scaleFactor == s && other.fragment == f
  }

  /** The classes' `__eq__` coincides with value equality of the datatype. */
  lemma PyEqIsEquality(a: Node, b: Node)
    ensures PyEq(a, b) <==> a == b
  {
  }

  // ----- attention parse actions -----

  /** A token of a grouped parse result: a number or a string. */
  datatype Token = Num(value: real) | Text(s: string)

  /** A non-empty run of one repeated character. */
  predicate IsRunOf(c: char, s: string)
  {
    |s| > 0 && forall i :: 0 <= i < |s| ==> s[i] == c
  }

  const PlusBase: real := 1.1
  const MinusBase: real := 0.9

  /** The action on `number(text)`: the number is the weight, the text the fragment. */
  function ExplicitAttention(group: seq<Token>): (a: Node)
    requires |group| >= 2 && group[0].Num? && group[1].Text?
    ensures a.Attention? && a.weight == group[0].value && a.fragment == group[1].s
  {
    Attention(group[0].value, group[1].s)
  }

  /** The action on a `+` run followed by words: weight 1.1^n for n pluses; only the first
      word of the group becomes the fragment. */
  function PlusAttention(group: seq<Token>): (a: Node)
    requires |group| >= 2 && group[0].Text? && IsRunOf('+', group[0].s) && group[1].Text?
    ensures a.Attention? && a.weight == Pow(PlusBase, |group[0].s|) && a.fragment == group[1].s
  {
    Attention(Pow(PlusBase, |group[0].s|), group[1].s)
  }

  /** The action on a `-` run followed by words: weight 0.9^n for n minuses. */
  function MinusAttention(group: seq<Token>): (a: Node)
    requires |group| >= 2 && group[0].Text? && IsRunOf('-', group[0].s) && group[1].Text?
    ensures a.Attention? && a.weight == Pow(MinusBase, |group[0].s|) && a.fragment == group[1].s
  {
    Attention(Pow(MinusBase, |group[0].s|), group[1].s)
  }

  /** Each extra `+` multiplies the weight by 1.1, so longer runs weigh strictly more, and
      every run weighs more than the neutral 1.0. */
  lemma {:induction false} PlusWeightGrows(n: nat, m: nat)
    requires 1 <= n < m
    ensures 1.0 < Pow(PlusBase, n) < Pow(PlusBase, m)
    decreases m
  {
    if m == n + 1 {
      PowAtLeastOne(PlusBase, n);
      if n > 1 {
        PlusWeightGrows(n - 1, n);
      }
    } else {
      PlusWeightGrows(n, m - 1);
      PowAtLeastOne(PlusBase, m - 1);
    }
  }

  lemma {:induction false} PowAtLeastOne(b: real, n: nat)
    requires b >= 1.0
    ensures Pow(b, n) >= 1.0
  {
    if n > 0 {
      PowAtLeastOne(b, n - 1);
    }
  }

  /** Each extra `-` multiplies the weight by 0.9: a run of minuses weighs strictly between
      0 and 1, and longer runs weigh strictly less. */
  lemma {:induction false} MinusWeightShrinks(n: nat, m: nat)
    requires 1 <= n < m
    ensures 0.0 < Pow(MinusBase, m) < Pow(MinusBase, n) < 1.0
    decreases m
  {
    if m == n + 1 {
      PowInUnit(MinusBase, n);
      if n > 1 {
        MinusWeightShrinks(n - 1, n);
      }
    } else {
      MinusWeightShrinks(n, m - 1);
      PowInUnit(MinusBase, m - 1);
    }
  }

  lemma {:induction false} PowInUnit(b: real, n: nat)
    requires 0.0 < b < 1.0
    ensures 0.0 < Pow(b, n) <= 1.0
  {
    if n > 0 {
      PowInUnit(b, n - 1);
    }
  }

  // ----- fragment fusion -----

  /** One step of `fuse_fragments`: a fragment following a fragment is appended to it with a
      single space; anything else is appended as a new item. */
  function FuseStep(result: seq<Node>, x: Node): (r: seq<Node>)
    ensures |result| <= |r| <= |result| + 1
    ensures !x.Fragment? ==> r == result + [x]
    ensures x.Fragment? ==> |r| > 0 && r[|r| - 1].Fragment?
  {
    if !x.Fragment? || |result| == 0 || !result[|result| - 1].Fragment? then result + [x]
    else result[..|result| - 1] + [Fragment(result[|result| - 1].text + " " + x.text)]
  }

  /** What `fuse_fragments` returns: its loop folded over the items from left to right. */
  function Fused(items: seq<Node>): (r: seq<Node>)
    ensures |r| <= |items|
    ensures |r| == 0 <==> |items| == 0
    decreases |items|
  {
    if |items| == 0 then [] else FuseStep(Fused(items[..|items| - 1]), items[|items| - 1])
  }

  /** `fuse_fragments(items)`: the loop of the source, updating the last result in place. */
  method FuseFragments(items: seq<Node>) returns (result: seq<Node>)
    ensures result == Fused(items)
  {
    result := [];
    for i := 0 to |items|
      invariant result == Fused(items[..i])
    {
      var x := items[i];
      assert items[..i + 1][..i] == items[..i];
      if !x.Fragment? {
        result := result + [x];
        continue;
      }
      if |result| == 0 || !result[|result| - 1].Fragment? {
        result := result + [x];
        continue;
      }
      result := result[..|result| - 1] + [Fragment(result[|result| - 1].text + " " + x.text)];
    }
    assert items[..|items|] == items;
  }

  /** No two consecutive items are both fragments. */
  predicate NoAdjacentFragments(s: seq<Node>)
  {
    forall i :: 0 <= i < |s| - 1 ==> !(s[i].Fragment? && s[i + 1].Fragment?)
  }

  /** The items that are not fragments, in order. */
  function NonFragments(s: seq<Node>): seq<Node>
    decreases |s|
  {
    if |s| == 0 then []
    else NonFragments(s[..|s| - 1]) + (if s[|s| - 1].Fragment? then [] else [s[|s| - 1]])
  }

  function Texts(s: seq<Node>): seq<string>
    requires forall i :: 0 <= i < |s| ==> s[i].Fragment?
  {
    seq(|s|, i requires 0 <= i < |s| => s[i].text)
  }

  /** Fusing never outputs two adjacent fragments, never lengthens the sequence, ends with
      a fragment exactly when the input does, and keeps the non-fragment items in order. */
  lemma {:induction false} FusedShape(items: seq<Node>)
    ensures NoAdjacentFragments(Fused(items))
    ensures |Fused(items)| <= |items|
    ensures |Fused(items)| == 0 <==> |items| == 0
    ensures |items| > 0 ==> (Fused(items)[|Fused(items)| - 1].Fragment? <==> items[|items| - 1].Fragment?)
    ensures NonFragments(Fused(items)) == NonFragments(items)
    decreases |items|
  {
    if |items| > 0 {
      var init := items[..|items| - 1];
      var x := items[|items| - 1];
      FusedShape(init);
      assert Fused(items) == FuseStep(Fused(init), x);
      assert NonFragments(items) == NonFragments(init) + (if x.Fragment? then [] else [x]);
      FuseStepShape(Fused(init), x);
    }
  }

  /** One fusion step keeps adjacent fragments apart, grows by at most one item, ends with a
      fragment exactly when the new item is one, and appends the new item's non-fragment part. */
  lemma FuseStepShape(r: seq<Node>, x: Node)
    requires NoAdjacentFragments(r)
    ensures NoAdjacentFragments(FuseStep(r, x))
    ensures 1 <= |FuseStep(r, x)| <= |r| + 1
    ensures FuseStep(r, x)[|FuseStep(r, x)| - 1].Fragment? <==> x.Fragment?
    ensures NonFragments(FuseStep(r, x)) == NonFragments(r) + (if x.Fragment? then [] else [x])
  {
    if !x.Fragment? || |r| == 0 || !r[|r| - 1].Fragment? {
      assert (r + [x])[..|r|] == r;
    } else {
      var f := Fragment(r[|r| - 1].text + " " + x.text);
      var r' := r[..|r| - 1] + [f];
      assert r'[..|r'| - 1] == r[..|r| - 1];
      assert NonFragments(r) == NonFragments(r[..|r| - 1]);
      assert forall i :: 0 <= i < |r'| - 1 ==> r'[i] == r[i];
    }
  }

  /** A non-empty run of fragments fuses into one fragment whose text is the run's texts,
      in order, joined by single spaces. */
  lemma {:induction false} FusedRun(items: seq<Node>)
    requires |items| > 0
    requires forall i :: 0 <= i < |items| ==> items[i].Fragment?
    ensures Fused(items) == [Fragment(Join(" ", Texts(items)))]
    decreases |items|
  {
    var init := items[..|items| - 1];
    var x := items[|items| - 1];
    assert items == init + [x];
    FusedLast(init, x);
    if |init| == 0 {
      assert Texts(items) == [x.text];
    } else {
      FusedRun(init);
      assert Texts(items) == Texts(init) + [x.text];
      JoinSnoc(" ", Texts(init), x.text);
    }
  }

  /** A step only looks at the last item, so a non-empty tail absorbs it. */
  lemma FuseStepAppend(p: seq<Node>, q: seq<Node>, x: Node)
    requires |q| > 0
    ensures FuseStep(p + q, x) == p + FuseStep(q, x)
  {
    assert (p + q)[|p + q| - 1] == q[|q| - 1];
    assert (p + q)[..|p + q| - 1] == p + q[..|q| - 1];
  }

  /** A non-fragment item is copied and blocks fusion across its position. */
  lemma {:induction false} FusedBreak(a: seq<Node>, n: Node, b: seq<Node>)
    requires !n.Fragment?
    ensures Fused(a + [n] + b) == Fused(a) + [n] + Fused(b)
    decreases |b|
  {
    var s := a + [n] + b;
    if |b| == 0 {
      FusedLast(a, n);
      assert s == a + [n];
    } else {
      var b' := b[..|b| - 1];
      var x := b[|b| - 1];
      assert s == (a + [n] + b') + [x];
      assert b == b' + [x];
      FusedLast(a + [n] + b', x);
      FusedLast(b', x);
      FusedBreak(a, n, b');
      var p := Fused(a) + [n];
      var q := Fused(b');
      if |q| == 0 {
        FuseStepAfterBreak(p, x);
        assert p + q == p;
      } else {
        FuseStepAppend(p, q, x);
      }
    }
  }

  /** Fusing a sequence with one more item is one more step. */
  lemma FusedLast(init: seq<Node>, x: Node)
    ensures Fused(init + [x]) == FuseStep(Fused(init), x)
  {
    assert (init + [x])[..|init|] == init;
  }

  /** After a non-fragment item, a step starts afresh. */
  lemma FuseStepAfterBreak(p: seq<Node>, x: Node)
    requires |p| > 0 && !p[|p| - 1].Fragment?
    ensures FuseStep(p, x) == p + [x] == p + FuseStep([], x)
  {
  }

  /** On a sequence without adjacent fragments fusing changes nothing. */
  lemma {:induction false} FusedFixpoint(items: seq<Node>)
    requires NoAdjacentFragments(items)
    ensures Fused(items) == items
    decreases |items|
  {
    if |items| > 0 {
      var init := items[..|items| - 1];
      assert NoAdjacentFragments(init);
      FusedFixpoint(init);
      assert items == init + [items[|items| - 1]];
    }
  }

  /** Fusing is idempotent. */
  lemma FusedIdempotent(items: seq<Node>)
    ensures Fused(Fused(items)) == Fused(items)
  {
    FusedShape(items);
    FusedFixpoint(Fused(items));
  }

  // ----- Blend -----

  /** A blend of prompts, each stored fused, with one weight per prompt. */
  datatype Blend = Blend(prompts: seq<seq<Node>>, weights: seq<real>)

  /** `Blend(prompts, weights)`: raises unless the counts agree; stores each prompt fused and
      the weights unchanged. */
  function NewBlend(prompts: seq<seq<Node>>, weights: seq<real>): (r: Result<Blend, ParsingException>)
    ensures r.Err? <==> |prompts| != |weights|
    ensures r.Ok? ==> r.value.weights == weights && |r.value.prompts| == |prompts|
    ensures r.Ok? ==> forall i :: 0 <= i < |prompts| ==> r.value.prompts[i] == Fused(prompts[i])
  {
    if |prompts| != |weights| then Err(MismatchedPromptWeightCounts)
    else Ok(Blend(seq(|prompts|, i requires 0 <= i < |prompts| => Fused(prompts[i])), weights))
  }

  /** A constructed blend keeps one weight per prompt, and none of its stored prompts has two
      adjacent fragments, so fusing them again changes nothing. */
  lemma BlendPromptsAreFused(prompts: seq<seq<Node>>, weights: seq<real>)
    requires NewBlend(prompts, weights).Ok?
    ensures |NewBlend(prompts, weights).value.prompts| == |NewBlend(prompts, weights).value.weights|
    ensures forall i :: 0 <= i < |prompts| ==>
      NoAdjacentFragments(NewBlend(prompts, weights).value.prompts[i]) &&
      Fused(NewBlend(prompts, weights).value.prompts[i]) == NewBlend(prompts, weights).value.prompts[i]
  {
    forall i | 0 <= i < |prompts|
      ensures NoAdjacentFragments(Fused(prompts[i])) && Fused(Fused(prompts[i])) == Fused(prompts[i])
    {
      FusedShape(prompts[i]);
      FusedIdempotent(prompts[i]);
    }
  }
}
