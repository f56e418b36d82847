/** The note card: the preview text and the tags it shows. */
module NoteCard {
  import opened Base

  const PreviewLength: nat := 120
  const MaxCardTags: nat := 5
  const Ellipsis: char := '\U{2026}'

  /** The first 120 characters of the content (empty when missing), with an
      ellipsis when anything was cut. */
  function Preview(content: Option<string>): (r: string)
    ensures var text := content.GetOr([]);
      (|text| <= PreviewLength ==> r == text)
      && (|text| > PreviewLength ==> |r| == PreviewLength + 1 && r[..PreviewLength] == text[..PreviewLength] && r[PreviewLength] == Ellipsis)
    ensures |r| <= PreviewLength + 1
    ensures var text := content.GetOr([]);
      r[..Min(|text|, PreviewLength)] == text[..Min(|text|, PreviewLength)]
  {
    var text := content.GetOr([]);
    Take(text, PreviewLength) + (if |text| > PreviewLength then [Ellipsis] else [])
  }

  /** The tags shown: the first five, none when the note has no tags. */
  function ShownTags(tags: Option<seq<string>>): (r: seq<string>)
    ensures tags.None? ==> r == []
    ensures |r| <= MaxCardTags
    ensures tags.Some? ==> r == tags.value[..Min(MaxCardTags, |tags.value|)]
  {
    Take(tags.GetOr([]), MaxCardTags)
  }
}
