/** The reduction of a dataset page to its description: the paragraph texts longer
    than 40 characters, joined with newlines, stripped, cut to 3000 characters. The
    page fetch and the HTML parse that produce the paragraph texts are not modelled. */
module DescriptionExtractor {
  import opened Text

  const MinParagraphLength := 40
  const MaxDescriptionLength := 3000

  predicate IsLongParagraph(paragraph: string) {
    |paragraph| > MinParagraphLength
  }

  /** The paragraphs that reach the description, in page order. */
  function KeptParagraphs(paragraphs: seq<string>): seq<string> {
    Filter(paragraphs, IsLongParagraph)
  }

  /** `"\n".join(kept).strip()` */
  function JoinedText(paragraphs: seq<string>): string {
    Strip(Join(KeptParagraphs(paragraphs), '\n'))
  }

  /** `text.strip()[:3000]`: at most 3000 characters, a prefix of the stripped join of
      the long paragraphs, and the whole of it when it is short enough. */
  function Describe(paragraphs: seq<string>): (description: string)
    ensures |description| <= MaxDescriptionLength
    ensures |description| == Min(MaxDescriptionLength, |JoinedText(paragraphs)|)
    ensures description == JoinedText(paragraphs)[..|description|]
  {
    SliceTo(JoinedText(paragraphs), MaxDescriptionLength)
  }

  /** Every paragraph reaching the join is longer than 40 characters, and every such
      paragraph of the page reaches the join; the `[:3000]` cut may still drop the later
      ones from the description. */
  lemma KeptParagraphsAreLong(paragraphs: seq<string>)
    ensures var kept := KeptParagraphs(paragraphs);
      && (forall i :: 0 <= i < |kept| ==> |kept[i]| > MinParagraphLength && kept[i] in paragraphs)
      && (forall i :: 0 <= i < |paragraphs| && |paragraphs[i]| > MinParagraphLength ==> paragraphs[i] in kept)
  {
  }

  /** A paragraph of at most 40 characters has no effect on the description, wherever
      it stands on the page. */
  lemma ShortParagraphIgnored(before: seq<string>, paragraph: string, after: seq<string>)
    requires |paragraph| <= MinParagraphLength
    ensures Describe(before + [paragraph] + after) == Describe(before + after)
  {
    FilterAppend(before + [paragraph], after, IsLongParagraph);
    FilterAppend(before, [paragraph], IsLongParagraph);
    FilterAppend(before, after, IsLongParagraph);
    assert [paragraph][1..] == [];
    assert Filter([paragraph], IsLongParagraph) == [];
    assert Filter(before + [paragraph], IsLongParagraph) == Filter(before, IsLongParagraph);
    assert KeptParagraphs(before + [paragraph] + after) == KeptParagraphs(before + after);
  }

  /** A page without a paragraph longer than 40 characters has an empty description. */
  lemma NoLongParagraphs(paragraphs: seq<string>)
    requires forall i :: 0 <= i < |paragraphs| ==> |paragraphs[i]| <= MinParagraphLength
    ensures Describe(paragraphs) == []
  {
    FilterKeepsNone(paragraphs, IsLongParagraph);
  }

  /** The description never starts with whitespace. */
  lemma DescriptionStartsClean(paragraphs: seq<string>)
    ensures var d := Describe(paragraphs); d != [] ==> !IsPySpace(d[0])
  {
  }
}
