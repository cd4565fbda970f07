/** The correctness test of `checkGuess`. */
module Guess {
  import opened Catalog

  /** A guess is correct when the picked images include both the content and
      the style image. */
  predicate IsCorrect(pair: seq<Ident>, content: Ident, style: Ident)
  {
    content in pair && style in pair
  }

  /** The verdict depends only on which images were picked, not on the order in
      which they were picked. */
  lemma VerdictIgnoresOrder(p: seq<Ident>, q: seq<Ident>, content: Ident, style: Ident)
    requires multiset(p) == multiset(q)
    ensures IsCorrect(p, content, style) == IsCorrect(q, content, style)
  {
    assert content in p <==> content in multiset(p);
    assert content in q <==> content in multiset(q);
    assert style in p <==> style in multiset(p);
    assert style in q <==> style in multiset(q);
  }

  /** For two different picks and different truth images, a guess is correct
      exactly when the picks, as an unordered pair, are the truth pair. */
  lemma CorrectIffUnorderedTruth(pair: seq<Ident>, content: Ident, style: Ident)
    requires |pair| == 2 && pair[0] != pair[1] && content != style
    ensures IsCorrect(pair, content, style) <==> {pair[0], pair[1]} == {content, style}
  {
    if {pair[0], pair[1]} == {content, style} {
      assert content in {pair[0], pair[1]};
      assert style in {pair[0], pair[1]};
    }
  }

  /** For an entry whose options are distinct, a pair of picks that includes a
      decoy is never correct. */
  lemma DecoyPairIsIncorrect(pair: seq<Ident>, o: Options)
    requires DistinctOptions(o) && |pair| == 2
    requires o.decoy1 in pair || o.decoy2 in pair
    ensures !IsCorrect(pair, o.content, o.style)
  {
  }
}
