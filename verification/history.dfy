/**
 The history panel's entry preview: the first hundred characters, with an
 ellipsis when anything was cut; selecting an entry hands over its full
 content.
 */
module History {
  import opened Text
  import opened App

  const PreviewLength := 100
  const Ellipsis := "..."

  /** `content.slice(0, 100)`. */
  function Excerpt(content: string): (r: string)
    ensures |r| == if |content| <= PreviewLength then |content| else PreviewLength
    ensures StartsWith(content, r)
  {
    if |content| <= PreviewLength then content else content[..PreviewLength]
  }

  /** The preview text: the excerpt, followed by an ellipsis when the content is longer than the excerpt. */
  function Preview(content: string): (r: string)
    ensures |r| <= PreviewLength + |Ellipsis|
    ensures |content| <= PreviewLength ==> r == content
    ensures |content| > PreviewLength ==> |r| == PreviewLength + |Ellipsis| && EndsWith(r, Ellipsis)
    ensures StartsWith(r, Excerpt(content)) && StartsWith(content, Excerpt(content))
  {
    Excerpt(content) + (if |content| > PreviewLength then Ellipsis else "")
  }

  /** A preview shows the content unchanged exactly when it is short, or is 103 characters already ending in the ellipsis. */
  lemma PreviewUnchanged(content: string)
    ensures Preview(content) == content <==>
      |content| <= PreviewLength || (|content| == PreviewLength + |Ellipsis| && EndsWith(content, Ellipsis))
  {
    if |content| > PreviewLength {
      var r := Preview(content);
      if r == content {
        assert content[PreviewLength..] == r[PreviewLength..];
      }
      if |content| == PreviewLength + |Ellipsis| && EndsWith(content, Ellipsis) {
        assert content == content[..PreviewLength] + content[PreviewLength..];
      }
    }
  }

  /** Long content loses its tail in the preview but nothing else: the preview minus the ellipsis is the content's opening. */
  lemma PreviewOfLongContent(content: string)
    requires |content| > PreviewLength
    ensures Preview(content) == content[..PreviewLength] + Ellipsis
  {
  }

  /** Two contents with the same preview agree on their first hundred characters. */
  lemma SamePreviewSameOpening(a: string, b: string)
    requires Preview(a) == Preview(b)
    ensures Excerpt(a) == Excerpt(b)
  {
    if |a| > PreviewLength && |b| > PreviewLength {
      assert Preview(a)[..PreviewLength] == Excerpt(a);
      assert Preview(b)[..PreviewLength] == Excerpt(b);
    }
  }

  /** What the application shows after a history entry is picked. */
  datatype Screen = Screen(content: string, showHistory: bool)

  /** `handleHistorySelect` fed from the entry's click handler: the full content, never the preview, is shown and the panel closes. */
  function SelectEntry(screen: Screen, item: HistoryItem): (r: Screen)
    ensures r.content == item.content && !r.showHistory
  {
    Screen(item.content, false)
  }

  /**
   The selected entry is shown in full, not as its preview: the shown text
   begins with the excerpt the panel listed, and it differs from the preview
   unless the content is short or already looks like a preview.
   */
  lemma SelectShowsFullContent(screen: Screen, item: HistoryItem)
    ensures StartsWith(SelectEntry(screen, item).content, Excerpt(item.content))
    ensures SelectEntry(screen, item).content == Preview(item.content) <==>
      |item.content| <= PreviewLength || (|item.content| == PreviewLength + |Ellipsis| && EndsWith(item.content, Ellipsis))
  {
    PreviewUnchanged(item.content);
  }
}
