/**
 * One card of the feed (`RecommendationCard` in recommendation-card.tsx): the
 * interaction state kept in the component's `useState` variables, the click
 * and dialog handlers that change it, and the expressions the card
 * recomputes on every render: the disclosed text, the two reaction counts,
 * the image area and the audio URL.
 */
module Card {
  import opened Wrappers
  import Js

  /** The reaction counts as received; each may be absent. */
  datatype Reactions = Reactions(thumbsUp: Option<int>, thumbsDown: Option<int>, heart: Option<int>)

  /** The props fields the modelled logic reads. */
  datatype Recommendation = Recommendation(
    id: string,
    text: string,
    image: Option<string>,
    audio: Option<string>,
    reactions: Reactions)

  // ------------------------------------------------------------ text disclosure

  /** Texts longer than this many characters are cut when collapsed. */
  const TruncationLength: nat := 150
  const Ellipsis: string := "..."
  const PlaceholderAudio: string := "/placeholder.mp3"
  const PlaceholderImage: string := "/placeholder.svg"

  /** `shouldTruncate`: the text is longer than the truncation length. */
  predicate ShouldTruncate(text: string) {
    |text| > TruncationLength
  }

  /** `truncatedText`: what the paragraph shows. */
  function TruncatedText(text: string, isExpanded: bool): string {
    if ShouldTruncate(text) && !isExpanded
    then Js.Substring(text, 0, TruncationLength) + Ellipsis
    else text
  }

  /** A text of at most 150 characters is shown in full, expanded or not. */
  lemma ShortTextShownInFull(text: string, isExpanded: bool)
    requires |text| <= 150
    ensures !ShouldTruncate(text)
    ensures TruncatedText(text, isExpanded) == text
  {
  }

  /** Expanded, any text is shown in full. */
  lemma ExpandedTextShownInFull(text: string)
    ensures TruncatedText(text, true) == text
  {
  }

  /**
   * A longer text, collapsed, shows its first 150 characters and "...": 153
   * characters, which without the "..." are a prefix of the text, and which
   * with the rest of the text put back give the text again.
   */
  lemma CollapsedLongText(text: string)
    requires ShouldTruncate(text)
    ensures var r := TruncatedText(text, false);
      |r| == 153 && r[150..] == "..." && r[..150] == text[..150]
      && r[..150] + text[150..] == text
  {
    var r := TruncatedText(text, false);
    assert r == text[..150] + Ellipsis;
    assert r[..150] == text[..150];
    assert text[..150] + text[150..] == text;
  }

  /** The boundary: 150 characters are never cut, 151 are cut unless expanded. */
  lemma TruncationBoundary(text: string)
    ensures |text| == 150 ==>
      (!ShouldTruncate(text) && TruncatedText(text, false) == text && TruncatedText(text, true) == text)
    ensures |text| == 151 ==>
      (ShouldTruncate(text) && TruncatedText(text, false) == text[..150] + "..."
       && TruncatedText(text, true) == text)
  {
  }

  /** The displayed text is never longer than the text plus the ellipsis, nor than 153 when cut. */
  lemma TruncatedTextLength(text: string, isExpanded: bool)
    ensures |TruncatedText(text, isExpanded)| <= |text| + 2
    ensures TruncatedText(text, isExpanded) != text ==> |TruncatedText(text, isExpanded)| == 153
  {
  }

  // ------------------------------------------------------------ reaction counts

  /**
   * `active && base ? base + 1 : base`: one more than the received count when
   * the reaction is on and the count is present and not zero.
   */
  function DisplayedCount(active: bool, base: Option<int>): Option<int> {
    if active && Js.NumberTruthy(base) then Some(base.value + 1) else base
  }

  /**
   * The count is incremented exactly when the reaction is on and the received
   * count is present and non-zero, and then by exactly one; otherwise the
   * received count is shown as it is.
   */
  lemma DisplayedCountIff(active: bool, base: Option<int>)
    ensures DisplayedCount(active, base) != base
      <==> active && base.Some? && base.value != 0
    ensures DisplayedCount(active, base) != base
      ==> DisplayedCount(active, base) == Some(base.value + 1)
  {
  }

  /** Turning a reaction on over an absent or zero count shows no increment. */
  lemma NoIncrementOverZeroOrAbsent(base: Option<int>)
    requires base == None || base == Some(0)
    ensures DisplayedCount(true, base) == base
  {
  }

  /** Off, the received count is shown unchanged. */
  lemma InactiveShowsBase(base: Option<int>)
    ensures DisplayedCount(false, base) == base
  {
  }

  // ----------------------------------------------------------------- image area

  /** What the top of the card shows. */
  datatype ImageArea = NoImage | ShowImage(src: string, alt: string) | ImageUnavailable

  /** `Image for ${text.substring(0, 20)}...`. */
  function ImageAlt(text: string): string {
    "Image for " + Js.Substring(text, 0, 20) + "..."
  }

  /** The three-way image choice. */
  function ImageAreaFor(image: Option<string>, imageError: bool, text: string): ImageArea {
    if Js.StringTruthy(image) && !imageError
    then ShowImage(Js.StringOr(image, PlaceholderImage), ImageAlt(text))
    else if Js.StringTruthy(image) then ImageUnavailable
    else NoImage
  }

  /**
   * No (or an empty) image: nothing is shown.  An image and no error: that
   * image is shown (its placeholder fallback is never used).  An image and an
   * error: "Image not available" is shown.
   */
  lemma ImageAreaCases(image: Option<string>, imageError: bool, text: string)
    ensures ImageAreaFor(image, imageError, text) == NoImage <==> !Js.StringTruthy(image)
    ensures ImageAreaFor(image, imageError, text).ShowImage?
      <==> Js.StringTruthy(image) && !imageError
    ensures ImageAreaFor(image, imageError, text).ShowImage?
      ==> ImageAreaFor(image, imageError, text).src == image.value
    ensures ImageAreaFor(image, imageError, text) == ImageUnavailable
      <==> Js.StringTruthy(image) && imageError
  {
  }

  /** The alt text quotes at most the first 20 characters of the text. */
  lemma ImageAltQuotesPrefix(text: string)
    ensures var a := ImageAlt(text);
      |a| == 13 + Js.Min(20, |text|) && a[10..|a| - 3] == text[..Js.Min(20, |text|)]
  {
  }

  // ------------------------------------------------------------------ audio URL

  /** `recommendation.audio || "/placeholder.mp3"`. */
  function AudioUrl(audio: Option<string>): string {
    Js.StringOr(audio, PlaceholderAudio)
  }

  /** A given, non-empty audio URL is used; an absent or empty one falls back. */
  lemma AudioUrlChoice(audio: Option<string>)
    ensures AudioUrl(audio) != ""
    ensures Js.StringTruthy(audio) ==> AudioUrl(audio) == audio.value
    ensures audio == None || audio == Some("") ==> AudioUrl(audio) == PlaceholderAudio
  {
  }

  // --------------------------------------------------------------- the component

  /** The state of one mounted card; `recommendation` is its props. */
  class RecommendationCard {
    const recommendation: Recommendation
    var isExpanded: bool
    var isFlagged: bool
    var flagDialogOpen: bool
    var isLiked: bool
    var isHearted: bool
    var imageError: bool

    /**
     * Expanded only when the expand control exists; an image error only
     * when there is an image whose load could fail.
     */
    ghost predicate Valid()
      reads this
    {
      && (isExpanded ==> ShouldTruncate(recommendation.text))
      && (imageError ==> Js.StringTruthy(recommendation.image))
    }

    /** The `useState` initial values. */
    constructor (recommendation: Recommendation)
      ensures Valid()
      ensures this.recommendation == recommendation
      ensures !isExpanded && !isFlagged && !flagDialogOpen
      ensures !isLiked && !isHearted && !imageError
    {
      this.recommendation := recommendation;
      isExpanded, isFlagged, flagDialogOpen := false, false, false;
      isLiked, isHearted, imageError := false, false, false;
    }

    function Text(): string
      reads this
    {
      TruncatedText(recommendation.text, isExpanded)
    }

    /** The expand/collapse button is rendered only for a long text. */
    predicate ExpandControlShown()
      reads this
    {
      ShouldTruncate(recommendation.text)
    }

    function ThumbsUpCount(): Option<int>
      reads this
    {
      DisplayedCount(isLiked, recommendation.reactions.thumbsUp)
    }

    function HeartCount(): Option<int>
      reads this
    {
      DisplayedCount(isHearted, recommendation.reactions.heart)
    }

    /** The image area; under the invariant it says "not available" exactly after an error. */
    function Image(): (a: ImageArea)
      reads this
      ensures Valid() ==> (a == ImageUnavailable <==> imageError)
    {
      ImageAreaFor(recommendation.image, imageError, recommendation.text)
    }

    function Audio(): string
      reads this
    {
      AudioUrl(recommendation.audio)
    }

    /** The chevron button under a long text. */
    method ToggleExpanded()
      requires Valid() && ExpandControlShown()
      modifies this
      ensures Valid()
      ensures isExpanded == !old(isExpanded)
      ensures Text() == TruncatedText(recommendation.text, !old(isExpanded))
      ensures isFlagged == old(isFlagged) && flagDialogOpen == old(flagDialogOpen)
      ensures isLiked == old(isLiked) && isHearted == old(isHearted)
      ensures imageError == old(imageError)
    {
      isExpanded := !isExpanded;
    }

    /** The thumbs-up button. */
    method ToggleLiked()
      requires Valid()
      modifies this
      ensures Valid()
      ensures isLiked == !old(isLiked)
      ensures ThumbsUpCount() == DisplayedCount(!old(isLiked), recommendation.reactions.thumbsUp)
      ensures HeartCount() == old(HeartCount())
      ensures isExpanded == old(isExpanded) && isHearted == old(isHearted)
      ensures isFlagged == old(isFlagged) && flagDialogOpen == old(flagDialogOpen)
      ensures imageError == old(imageError)
    {
      isLiked := !isLiked;
    }

    /** The heart button. */
    method ToggleHearted()
      requires Valid()
      modifies this
      ensures Valid()
      ensures isHearted == !old(isHearted)
      ensures HeartCount() == DisplayedCount(!old(isHearted), recommendation.reactions.heart)
      ensures ThumbsUpCount() == old(ThumbsUpCount())
      ensures isExpanded == old(isExpanded) && isLiked == old(isLiked)
      ensures isFlagged == old(isFlagged) && flagDialogOpen == old(flagDialogOpen)
      ensures imageError == old(imageError)
    {
      isHearted := !isHearted;
    }

    /** The flag button: it only opens the dialog. */
    method OpenFlagDialog()
      requires Valid()
      modifies this
      ensures Valid()
      ensures flagDialogOpen
      ensures isFlagged == old(isFlagged)
      ensures isExpanded == old(isExpanded) && isLiked == old(isLiked)
      ensures isHearted == old(isHearted) && imageError == old(imageError)
    {
      flagDialogOpen := true;
    }

    /**
     * The flag dialog's `onOpenChange(open)`: the dialog follows `open`, and
     * every close marks the card as flagged; nothing clears the flag.
     */
    method OnOpenChange(open: bool)
      requires Valid()
      modifies this
      ensures Valid()
      ensures flagDialogOpen == open
      ensures isFlagged == (old(isFlagged) || !open)
      ensures old(isFlagged) ==> isFlagged
      ensures isExpanded == old(isExpanded) && isLiked == old(isLiked)
      ensures isHearted == old(isHearted) && imageError == old(imageError)
    {
      flagDialogOpen := open;
      if !open && !isFlagged {
        isFlagged := true;
      }
    }

    /** The `onError` of the card's image, which exists only while it is shown. */
    method HandleImageError()
      requires Valid() && Image().ShowImage?
      modifies this
      ensures Valid()
      ensures imageError
      ensures Image() == ImageUnavailable
      ensures isExpanded == old(isExpanded) && isLiked == old(isLiked)
      ensures isHearted == old(isHearted)
      ensures isFlagged == old(isFlagged) && flagDialogOpen == old(flagDialogOpen)
    {
      imageError := true;
    }
  }
}
