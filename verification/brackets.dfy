/** Extraction of the "unconditioned words" written in square brackets, shared by the two
    copies of `get_uc_and_c` (ldm/invoke/conditioning.py and ldm/dream/conditioning.py): every
    match of `\[(.*?)\]` is collected, joined with spaces, and replaced by a space in the
    prompt, after which runs of spaces are collapsed. */
module UnconditionedWords {
  import opened Wrappers
  import opened PyStrings

  /** Index of the `]` that closes a lazy `(.*?)\]` started at the beginning of `s`, or None
      when a newline (which `.` does not match) or the end of the text comes first. */
  function CloseBracket(s: string): (r: Option<nat>)
    ensures r.Some? ==> r.value < |s| && s[r.value] == ']'
    ensures r.Some? ==> forall i :: 0 <= i < r.value ==> s[i] != ']' && s[i] != '\n'
    ensures r.None? ==> forall k :: 0 <= k < |s| && s[k] == ']' ==> '\n' in s[..k]
    decreases |s|
  {
    if |s| == 0 then None
    else if s[0] == ']' then Some(0)
    else if s[0] == '\n' then None
    else
      match CloseBracket(s[1..])
      case None =>
        assert forall k :: 1 <= k < |s| ==> s[1..][..k - 1] == s[1..k];
        None
      case Some(k) => Some(k + 1)
  }

  /** The matches found and the text with each match replaced by one space. */
  datatype Extraction = Extraction(spans: seq<string>, cleaned: string)

  /** `re.findall` and `re.sub(' ', ...)` with the pattern `\[(.*?)\]`, scanning left to right. */
  function ExtractBrackets(s: string): (r: Extraction)
    ensures forall i :: 0 <= i < |r.spans| ==> ']' !in r.spans[i] && '\n' !in r.spans[i]
    decreases |s|
  {
    if |s| == 0 then Extraction([], "")
    else if s[0] == '[' && CloseBracket(s[1..]).Some? then
      var k := CloseBracket(s[1..]).value;
      var rest := ExtractBrackets(s[k + 2..]);
      assert s[1..k + 1] == s[1..][..k];
      Extraction([s[1..k + 1]] + rest.spans, " " + rest.cleaned)
    else
      var rest := ExtractBrackets(s[1..]);
      Extraction(rest.spans, [s[0]] + rest.cleaned)
  }

  /** One character that does not open a bracket is copied through. */
  lemma ExtractStep(s: string)
    requires |s| > 0 && s[0] != '['
    ensures ExtractBrackets(s) == Extraction(ExtractBrackets(s[1..]).spans, [s[0]] + ExtractBrackets(s[1..]).cleaned)
  {
  }

  /** Text without `[` has no matches and is left as it is. */
  lemma NoBracketsNothingExtracted(s: string)
    requires '[' !in s
    ensures ExtractBrackets(s) == Extraction([], s)
  {
    ExtractPlain(s, "");
    assert s + "" == s;
  }

  /** Leading spaces dropped. */
  function DropSpaces(s: string): (r: string)
    ensures |r| <= |s| && (|r| > 0 ==> r[0] != ' ')
    decreases |s|
  {
    if |s| > 0 && s[0] == ' ' then DropSpaces(s[1..]) else s
  }

  /** `re.sub(' +', ' ', s)`: every run of spaces becomes a single space. */
  function CollapseSpaces(s: string): (r: string)
    ensures |r| <= |s|
    ensures |s| > 0 ==> |r| > 0 && r[0] == s[0]
    decreases |s|
  {
    if |s| == 0 then ""
    else if s[0] == ' ' then " " + CollapseSpaces(DropSpaces(s[1..]))
    else [s[0]] + CollapseSpaces(s[1..])
  }

  /** No two spaces next to each other. */
  predicate NoDoubleSpace(s: string)
  {
    forall i :: 0 <= i < |s| - 1 ==> !(s[i] == ' ' && s[i + 1] == ' ')
  }

  /** The text with every space removed. */
  function NonSpaces(s: string): string
    decreases |s|
  {
    if |s| == 0 then "" else (if s[0] == ' ' then "" else [s[0]]) + NonSpaces(s[1..])
  }

  lemma {:induction false} DropSpacesNonSpaces(s: string)
    ensures NonSpaces(DropSpaces(s)) == NonSpaces(s)
    decreases |s|
  {
    if |s| > 0 && s[0] == ' ' {
      DropSpacesNonSpaces(s[1..]);
    }
  }

  /** Collapsing leaves no double space and changes nothing but the spaces. */
  lemma {:induction false} CollapseSpacesProperties(s: string)
    ensures NoDoubleSpace(CollapseSpaces(s))
    ensures NonSpaces(CollapseSpaces(s)) == NonSpaces(s)
    decreases |s|
  {
    if |s| > 0 {
      var r := CollapseSpaces(s);
      if s[0] == ' ' {
        var d := DropSpaces(s[1..]);
        CollapseSpacesProperties(d);
        DropSpacesNonSpaces(s[1..]);
        var t := CollapseSpaces(d);
        assert r == " " + t;
        assert |t| > 0 ==> t[0] == d[0] && t[0] != ' ';
        assert r[1..] == t;
        assert NonSpaces(r) == NonSpaces(t);
      } else {
        CollapseSpacesProperties(s[1..]);
        var t := CollapseSpaces(s[1..]);
        assert r == [s[0]] + t;
        assert r[1..] == t;
      }
    }
  }

  /** Text without double spaces is left as it is, so collapsing is idempotent. */
  lemma {:induction false} CollapseSpacesFixpoint(s: string)
    requires NoDoubleSpace(s)
    ensures CollapseSpaces(s) == s
    decreases |s|
  {
    if |s| > 0 {
      assert NoDoubleSpace(s[1..]) by {
        forall i | 0 <= i < |s[1..]| - 1
          ensures !(s[1..][i] == ' ' && s[1..][i + 1] == ' ')
        {
          assert s[1..][i] == s[i + 1] && s[1..][i + 1] == s[i + 2];
        }
      }
      CollapseSpacesFixpoint(s[1..]);
      if s[0] == ' ' {
        assert |s| > 1 ==> s[1] != ' ';
        assert DropSpaces(s[1..]) == s[1..];
      }
      assert s == [s[0]] + s[1..];
    }
  }

  lemma CollapseSpacesIdempotent(s: string)
    ensures CollapseSpaces(CollapseSpaces(s)) == CollapseSpaces(s)
  {
    CollapseSpacesProperties(s);
    CollapseSpacesFixpoint(CollapseSpaces(s));
  }

  /** `(unconditioned_words, prompt_string_cleaned)` of `get_uc_and_c`. */
  datatype Cleaned = Cleaned(unconditionedWords: string, prompt: string)

  /** With at least one match, the matches joined by spaces and the collapsed text; without
      any, the empty string and the prompt untouched. */
  function CleanPrompt(s: string): (r: Cleaned)
    ensures r.unconditionedWords == Join(" ", ExtractBrackets(s).spans)
    ensures |ExtractBrackets(s).spans| == 0 ==> r.prompt == s
    ensures |ExtractBrackets(s).spans| > 0 ==> NoDoubleSpace(r.prompt)
    ensures |ExtractBrackets(s).spans| > 0 ==> NonSpaces(r.prompt) == NonSpaces(ExtractBrackets(s).cleaned)
  {
    var e := ExtractBrackets(s);
    if |e.spans| > 0 then
      CollapseSpacesProperties(e.cleaned);
      Cleaned(Join(" ", e.spans), CollapseSpaces(e.cleaned))
    else Cleaned("", s)
  }

  // ----- the partner: prompts built from plain text and bracketed words -----

  /** A piece of a prompt: plain text, or words written in square brackets. */
  datatype Piece = Plain(text: string) | Bracketed(words: string)

  /** A piece the pattern reads back as written: plain text holds no `[`, bracketed words
      hold no `]` and no newline. */
  predicate WellFormed(p: Piece)
  {
    match p
    case Plain(t) => '[' !in t
    case Bracketed(w) => ']' !in w && '\n' !in w
  }

  /** The prompt text the pieces spell. */
  function Spell(ps: seq<Piece>): string
    decreases |ps|
  {
    if |ps| == 0 then ""
    else (match ps[0] case Plain(t) => t case Bracketed(w) => "[" + w + "]") + Spell(ps[1..])
  }

  /** The bracketed words, in order. */
  function Words(ps: seq<Piece>): seq<string>
    decreases |ps|
  {
    if |ps| == 0 then [] else (if ps[0].Bracketed? then [ps[0].words] else []) + Words(ps[1..])
  }

  /** The text with each bracketed piece replaced by one space. */
  function Blanked(ps: seq<Piece>): string
    decreases |ps|
  {
    if |ps| == 0 then "" else (if ps[0].Bracketed? then " " else ps[0].text) + Blanked(ps[1..])
  }

  lemma {:induction false} ExtractPlain(t: string, rest: string)
    requires '[' !in t
    ensures ExtractBrackets(t + rest) == Extraction(ExtractBrackets(rest).spans, t + ExtractBrackets(rest).cleaned)
    decreases |t|
  {
    if |t| > 0 {
      var s := t + rest;
      assert s[0] == t[0] && t[0] != '[';
      assert s[1..] == t[1..] + rest;
      ExtractPlain(t[1..], rest);
      var e := ExtractBrackets(rest);
      ExtractStep(s);
      assert [t[0]] + (t[1..] + e.cleaned) == t + e.cleaned;
    } else {
      assert t + rest == rest;
    }
  }

  lemma ExtractBracketed(w: string, rest: string)
    requires ']' !in w && '\n' !in w
    ensures ExtractBrackets("[" + w + "]" + rest) ==
      Extraction([w] + ExtractBrackets(rest).spans, " " + ExtractBrackets(rest).cleaned)
  {
    var s := "[" + w + "]" + rest;
    assert s[1..] == w + "]" + rest;
    assert CloseBracket(s[1..]) == Some(|w|) by {
      CloseAfter(w, rest);
    }
    assert s[1..|w| + 1] == w;
    assert s[|w| + 2..] == rest;
  }

  lemma {:induction false} CloseAfter(w: string, rest: string)
    requires ']' !in w && '\n' !in w
    ensures CloseBracket(w + "]" + rest) == Some(|w|)
    decreases |w|
  {
    var s := w + "]" + rest;
    if |w| > 0 {
      assert s[0] == w[0];
      assert s[1..] == w[1..] + "]" + rest;
      CloseAfter(w[1..], rest);
    } else {
      assert s[0] == ']';
    }
  }

  /** Round trip: the pattern finds exactly the bracketed words, in order, and blanks out
      exactly them. */
  lemma {:induction false} ExtractSpelled(ps: seq<Piece>)
    requires forall i :: 0 <= i < |ps| ==> WellFormed(ps[i])
    ensures ExtractBrackets(Spell(ps)) == Extraction(Words(ps), Blanked(ps))
    decreases |ps|
  {
    if |ps| > 0 {
      ExtractSpelled(ps[1..]);
      match ps[0]
      case Plain(t) =>
        ExtractPlain(t, Spell(ps[1..]));
      case Bracketed(w) =>
        ExtractBracketed(w, Spell(ps[1..]));
    }
  }

  /** `get_uc_and_c` on a prompt built from pieces: the unconditioned words are the bracketed
      words joined by spaces; the prompt is the blanked text with its space runs collapsed,
      or the prompt itself when nothing was bracketed. */
  lemma CleanSpelled(ps: seq<Piece>)
    requires forall i :: 0 <= i < |ps| ==> WellFormed(ps[i])
    ensures |Words(ps)| > 0 ==> CleanPrompt(Spell(ps)) == Cleaned(Join(" ", Words(ps)), CollapseSpaces(Blanked(ps)))
    ensures |Words(ps)| == 0 ==> CleanPrompt(Spell(ps)) == Cleaned("", Spell(ps))
  {
    ExtractSpelled(ps);
  }

  /** The example `a [b] c`: the unconditioned word is `b` and the prompt is `a c`. */
  lemma CleanExample()
    ensures CleanPrompt("a [b] c") == Cleaned("b", "a c")
  {
    var ps := [Plain("a "), Bracketed("b"), Plain(" c")];
    ExamplePieces(ps);
    CleanSpelled(ps);
    ExampleCollapse();
  }

  lemma ExamplePieces(ps: seq<Piece>)
    requires ps == [Plain("a "), Bracketed("b"), Plain(" c")]
    ensures forall i :: 0 <= i < |ps| ==> WellFormed(ps[i])
    ensures Spell(ps) == "a [b] c" && Words(ps) == ["b"] && Blanked(ps) == "a   c"
    ensures Join(" ", ["b"]) == "b"
  {
    var p2 := [Plain(" c")];
    var p1 := [Bracketed("b")] + p2;
    assert ps == [Plain("a ")] + p1;
    ExampleSpell(ps, p1, p2);
    ExampleBlanked(ps, p1, p2);
    ExampleWords(ps, p1, p2);
    assert WellFormed(ps[0]) && WellFormed(ps[1]) && WellFormed(ps[2]);
  }

  lemma ExampleWords(ps: seq<Piece>, p1: seq<Piece>, p2: seq<Piece>)
    requires p2 == [Plain(" c")] && p1 == [Bracketed("b")] + p2 && ps == [Plain("a ")] + p1
    ensures Words(ps) == ["b"]
    ensures Join(" ", ["b"]) == "b"
  {
    assert ps[1..] == p1 && p1[1..] == p2 && p2[1..] == [];
    assert Words(p2) == [];
    assert Words(p1) == ["b"];
  }

  lemma ExampleSpell(ps: seq<Piece>, p1: seq<Piece>, p2: seq<Piece>)
    requires p2 == [Plain(" c")] && p1 == [Bracketed("b")] + p2 && ps == [Plain("a ")] + p1
    ensures Spell(ps) == "a [b] c"
  {
    assert ps[1..] == p1 && p1[1..] == p2 && p2[1..] == [];
    assert Spell(p2) == " c";
    assert Spell(p1) == "[b] c";
  }

  lemma ExampleBlanked(ps: seq<Piece>, p1: seq<Piece>, p2: seq<Piece>)
    requires p2 == [Plain(" c")] && p1 == [Bracketed("b")] + p2 && ps == [Plain("a ")] + p1
    ensures Blanked(ps) == "a   c"
  {
    assert ps[1..] == p1 && p1[1..] == p2 && p2[1..] == [];
    assert Blanked(p2) == " c";
    assert Blanked(p1) == "  c";
  }

  lemma ExampleCollapse()
    ensures CollapseSpaces("a   c") == "a c"
  {
    assert "a   c"[1..] == "   c";
    assert "   c"[1..] == "  c";
    assert "  c"[1..] == " c";
    assert " c"[1..] == "c";
    assert DropSpaces("  c") == "c";
  }
}
