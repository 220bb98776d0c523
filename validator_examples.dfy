/** Worked examples of the router and the prompt check, on concrete messages. */
module ValidatorExamples {
  import opened Text
  import opened Validator

  /** A word holding a character that `s` lacks is not a substring of `s`. */
  lemma MissingCharExcludes(s: string, w: string, j: nat)
    requires j < |w| && w[j] !in s
    ensures !Contains(s, w)
  {
    ContainsIff(s, w);
    forall i: nat ensures !OccursAt(s, w, i) {
      if i + |w| <= |s| {
        assert s[i..i + |w|][j] == s[i + j];
      }
    }
  }

  /** From index `k` on, each word in `words` holds a character, at the index `picks` gives, that `s` lacks. */
  predicate LacksPickedChars(s: string, words: seq<string>, picks: seq<nat>, k: nat)
    requires |picks| == |words|
    decreases |words| - k
  {
    k >= |words| ||
    (picks[k] < |words[k]| && words[k][picks[k]] !in s && LacksPickedChars(s, words, picks, k + 1))
  }

  /** When every word from index `k` on holds a character `s` lacks, none of them is a substring of `s`. */
  lemma {:induction false} MissingCharsExcludeAll(s: string, words: seq<string>, picks: seq<nat>, k: nat)
    requires |picks| == |words| && k <= |words|
    requires LacksPickedChars(s, words, picks, k)
    ensures !ContainsAny(s, words[k..])
    decreases |words| - k
  {
    if k < |words| {
      MissingCharExcludes(s, words[k], picks[k]);
      MissingCharsExcludeAll(s, words, picks, k + 1);
      assert words[k..][1..] == words[k + 1..];
    }
  }

  /** "please Draw a cat" asks for an image: "draw" occurs once it is lowered. */
  lemma DrawRequestIsImage()
    ensures ShouldGenerateImage("please Draw a cat")
  {
    var l := Lower("please Draw a cat");
    assert l == "please draw a cat";
    assert OccursAt(l, ImageKeywords[5], 7);
    ContainsAnyOccurs(l, ImageKeywords);
  }

  /** "Let me start" is routed to the image flow, because "art" occurs inside "start". */
  lemma StartOverTriggers()
    ensures ShouldGenerateImage("Let me start")
  {
    var l := Lower("Let me start");
    assert l == "let me start";
    assert OccursAt(l, ImageKeywords[8], 9);
    ContainsAnyOccurs(l, ImageKeywords);
  }

  /** The characters the examples below rely on being absent from "what is quantum computing?". */
  lemma AbsentFromQuestion(c: char)
    requires c in "evrdkl"
    ensures c !in "what is quantum computing?"
  {
  }

  /** The characters the examples below rely on being absent from "a beautiful sunset over mountains". */
  lemma AbsentFromSunset(c: char)
    requires c in "wdxcg"
    ensures c !in "a beautiful sunset over mountains"
  {
  }

  /** "What is quantum computing?" holds no keyword and is routed to chat. */
  lemma QuestionIsText()
    ensures !ShouldGenerateImage("What is quantum computing?")
  {
    QuestionLowered();
    QuestionLacksKeywords();
  }

  lemma QuestionLowered()
    ensures Lower("What is quantum computing?") == "what is quantum computing?"
  {
  }

  /** Characters of "make", "design", "art" and "illustration" that the question lacks. */
  lemma QuestionLacksLastKeywords()
    ensures LacksPickedChars("what is quantum computing?", ImageKeywords, [5, 0, 4, 1, 5, 0, 2, 0, 1, 1], 6)
  {
    AbsentFromQuestion('k'); AbsentFromQuestion('d'); AbsentFromQuestion('r'); AbsentFromQuestion('l');
  }

  lemma QuestionLacksKeywords()
    ensures !ContainsAny("what is quantum computing?", ImageKeywords)
  {
    QuestionLacksLastKeywords();
    AbsentFromQuestion('e'); AbsentFromQuestion('v'); AbsentFromQuestion('r'); AbsentFromQuestion('d');
    MissingCharsExcludeAll("what is quantum computing?", ImageKeywords, [5, 0, 4, 1, 5, 0, 2, 0, 1, 1], 0);
    assert ImageKeywords[0..] == ImageKeywords;
  }

  /** Too short: "hi" is refused for length. */
  lemma HiTooShort()
    ensures IsValidImagePrompt("hi") == Rejected(MinLengthReason)
  {
    ShortPromptRejectedForLength("hi");
  }

  /** Too short even though it names a forbidden word: the length test comes first. */
  lemma ShortForbiddenRejectedForLength()
    ensures IsValidImagePrompt("  nsfw art ") == Rejected(MinLengthReason)
  {
    ShortPromptRejectedForLength("  nsfw art ");
  }

  lemma SunsetIsStripped()
    ensures Strip("a beautiful sunset over mountains") == "a beautiful sunset over mountains"
  {
    StripOfStripped("a beautiful sunset over mountains");
  }

  lemma SunsetIsLowered()
    ensures Lower("a beautiful sunset over mountains") == "a beautiful sunset over mountains"
  {
  }

  lemma SunsetLacksForbidden()
    ensures !ContainsAny("a beautiful sunset over mountains", ForbiddenWords)
  {
    AbsentFromSunset('w'); AbsentFromSunset('d'); AbsentFromSunset('x');
    AbsentFromSunset('c'); AbsentFromSunset('g');
    MissingCharsExcludeAll("a beautiful sunset over mountains", ForbiddenWords, [3, 2, 1, 6, 4, 0], 0);
    assert ForbiddenWords[0..] == ForbiddenWords;
  }

  /** A long, harmless description is accepted. */
  lemma SunsetAccepted()
    ensures IsValidImagePrompt("a beautiful sunset over mountains") == Accepted
  {
    SunsetIsStripped();
    SunsetIsLowered();
    SunsetLacksForbidden();
  }

  lemma NsfwRequestIsStripped()
    ensures Strip("draw something nsfw please") == "draw something nsfw please"
  {
    StripOfStripped("draw something nsfw please");
  }

  lemma NsfwRequestIsLowered()
    ensures Lower("draw something nsfw please") == "draw something nsfw please"
  {
  }

  /** A long description holding a forbidden word is refused for content. */
  lemma NsfwRejected()
    ensures IsValidImagePrompt("draw something nsfw please") == Rejected(ContentReason)
  {
    NsfwRequestIsStripped();
    NsfwRequestIsLowered();
    assert OccursAt("draw something nsfw please", ForbiddenWords[0], 15);
    ContainsAnyOccurs("draw something nsfw please", ForbiddenWords);
  }
}
