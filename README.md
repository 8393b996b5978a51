# Murmur: record page and recommendation card

A Dafny model of the two interactive components of the Murmur client.

- The record page (`RecordPage`, page.tsx) holds the capture state. This is the
  `isRecording` / `isPaused` pair driven by the Start/Stop and Pause/Resume
  buttons, the `recordingTime` counter, and the editable transcript,
  location and category. Each render computes the `MM:SS` timer text and
  whether the Publish button is enabled.
- The recommendation card (`RecommendationCard`, recommendation-card.tsx)
  holds one feed card's interaction state. This is the expand flag, the
  like and heart toggles, the flag-dialog workflow and the image-error
  latch. Each render computes the disclosed text (cut at 150 characters),
  the two displayed reaction counts, the image area and the audio URL.

Files:

- `wrappers.dfy`: module `Wrappers`, an `Option` type for `null`/`undefined`.
- `js.dfy`: module `Js`, the JavaScript built-ins the components call, with
  their ECMAScript meaning. These are truthiness, `||`, `trim`,
  `padStart`, `substring` and `Number#toString` on naturals. It also has
  `IndexOf` and `ParseNat`, which find a character and read a decimal
  numeral back. No component calls them: together they read the timer
  text back, so that its round trip can be stated.
- `record_page.dfy`: module `Record`, the class `Record.RecordPage` and the
  pure `FormatTime` / `PublishEnabled`.
- `recommendation_card.dfy`: module `Card`, the class
  `Card.RecommendationCard` and the pure render functions.

Each component is a class. Its fields are the component's `useState`
variables and its methods are the event handlers. Each method states its
complete new state. A handler whose control is rendered only in some states
requires that state:

- Pause/Resume is rendered only while recording (page.tsx:72).
- The expand chevron is rendered only for a long text
  (recommendation-card.tsx:121).
- The image `onError` is attached only to the image that is shown
  (recommendation-card.tsx:63-70).

These give the class invariants. The page keeps paused ⇒ recording. The card
keeps expanded ⇒ long text and image error ⇒ there is an image.

The intended behaviour of the app describes a Stopped state, discard and
publish, reaction counts of `base + 1`, a cancel outcome for the flag
dialog and grapheme-safe cutting. The code differs from that in a few
places, and the model follows the code:

- The page has no Stopped, discard or publish state, and has no timer tick.
  Stopping returns both booleans to their initial values. Nothing ever
  changes `recordingTime`.
- A displayed reaction count is `base + 1` only when the count is present
  and non-zero. It is not `base + 1` whenever the reaction is on.
- Every close of the flag dialog flags the card. There is no separate
  cancel.
- Truncation cuts at a character position and is not grapheme-safe.

## Model

| member | source | states |
|---|---|---|
| `Record.CategoryState` | page.tsx:18 | the category state string is "" exactly when no category is chosen |
| `Record.CategoryStateRoundTrip` | page.tsx:115-120 | every state string an item produces reads back as that choice |
| `Record.CategoryStateInjective` | page.tsx:110-120 | two choices give the same state string only if they are the same choice |
| `Record.Pad2` | page.tsx:37 | `padStart(2, "0")` gives a field of max(2, digits) characters, exactly 2 below 100 |
| `Record.Pad2Value` | page.tsx:37 | the padded field is all digits and still reads back as the number |
| `Record.FormatTime` | page.tsx:34-38 | the timer text has at least 5 characters, with the colon third from the end |
| `Record.FormatTimeRoundTrip` | page.tsx:34-37 | reading the two fields back gives `time / 60` and `time % 60`, so seconds < 60 and 60·m + s = time |
| `Record.FormatTimeLength` | page.tsx:37 | the length is 3 + max(2, minute digits), and it is exactly 5 iff time < 6000; minutes are never cut |
| `Record.FormatTimeZero` | page.tsx:65 | the initial display reads "00:00" |
| `Record.FormatTimeHundredMinutes` | page.tsx:34-37 | 6000 seconds display as "100:00" |
| `Record.PublishEnabledIff` | page.tsx:141 | Publish is enabled iff the transcript has a non-whitespace character; empty and whitespace-only transcripts disable it, whatever the location and category |
| `Record.RecordPage.constructor` | page.tsx:13-18 | initially not recording, not paused, time 0, empty transcript and location, no category |
| `Record.RecordPage.CurrentPhase` | page.tsx:51-62 | the phase is Idle iff not recording, and Paused iff paused |
| `Record.RecordPage.ToggleRecording` | page.tsx:20-28 | flips `isRecording`, always clears `isPaused` (Idle → Live, otherwise → Idle), keeps paused ⇒ recording, changes nothing else |
| `Record.RecordPage.TogglePause` | page.tsx:30-32 | while recording, flips only `isPaused` (Live ↔ Paused), keeps paused ⇒ recording |
| `Record.RecordPage.SetTranscribedText` | page.tsx:88 | replaces the transcript with the new value in every phase and changes nothing else |
| `Record.RecordPage.SetLocation` | page.tsx:102 | replaces the location with the new value in every phase and changes nothing else |
| `Record.RecordPage.SetCategory` | page.tsx:110 | sets the category to the chosen item, whose value string becomes the state, and changes nothing else |
| `Js.Trim` | page.tsx:141 | `trim()` is a slice of its input with only whitespace around it and no whitespace at its ends |
| `Js.TrimEmptyIff` | page.tsx:141 | `trim()` is empty iff every character is ECMAScript whitespace or a line terminator |
| `Js.PadStart` | page.tsx:37 | `padStart` never truncates: its input is a suffix of the result, and only fill characters come before it |
| `Js.NumberToString` | page.tsx:37 | `toString` gives a non-empty digit string that starts with '0' only for 0 |
| `Js.DecimalValueOfNumberToString` | page.tsx:37 | reading `toString`'s digits back gives the number |
| `Js.DecimalValueLeadingZeros` | page.tsx:37 | zero padding does not change the value read back |
| `Js.NumberToStringLength` | page.tsx:37 | one digit iff n < 10, at most two iff n < 100 |
| `Card.ShortTextShownInFull` | recommendation-card.tsx:51-53 | a text of at most 150 characters is not truncated and is shown in full, expanded or not |
| `Card.ExpandedTextShownInFull` | recommendation-card.tsx:52-53 | an expanded text is shown in full |
| `Card.CollapsedLongText` | recommendation-card.tsx:52-53 | a collapsed long text shows 153 characters: the text's first 150, then "..."; with the rest put back this is the text again |
| `Card.TruncationBoundary` | recommendation-card.tsx:51-53 | 150 characters are never cut; 151 are cut to 150 + "..." when collapsed and shown in full when expanded |
| `Card.TruncatedTextLength` | recommendation-card.tsx:52-53 | the shown text is at most 2 longer than the text, and is exactly 153 long whenever it differs from the text |
| `Card.DisplayedCountIff` | recommendation-card.tsx:150-152 | the shown count differs from the received one iff the reaction is on and the count is present and non-zero, and then it is one more |
| `Card.NoIncrementOverZeroOrAbsent` | recommendation-card.tsx:150-152 | liking over a 0 or absent count shows that count unchanged |
| `Card.InactiveShowsBase` | recommendation-card.tsx:164-166 | with the reaction off, the received count is shown |
| `Card.ImageAreaCases` | recommendation-card.tsx:63-77 | with no image nothing is shown; with an image and no error that image is shown; with an image and an error "Image not available" is shown |
| `Card.ImageAltQuotesPrefix` | recommendation-card.tsx:67 | the alt text quotes the first min(20, length) characters of the text |
| `Card.AudioUrlChoice` | recommendation-card.tsx:48 | a non-empty audio URL is used as it is; an absent or empty one becomes "/placeholder.mp3" |
| `Card.RecommendationCard.constructor` | recommendation-card.tsx:40-45 | all six state flags start false |
| `Card.RecommendationCard.Image` | recommendation-card.tsx:63-77 | while the invariant holds, the image area says "Image not available" exactly when the error latch is set |
| `Card.RecommendationCard.ToggleExpanded` | recommendation-card.tsx:121-127 | only when the text is long, flips `isExpanded` and nothing else, so the shown text switches between cut and full |
| `Card.RecommendationCard.ToggleLiked` | recommendation-card.tsx:146 | flips only `isLiked`; the thumbs-up count follows the new flag and the heart count is unchanged |
| `Card.RecommendationCard.ToggleHearted` | recommendation-card.tsx:160 | flips only `isHearted`; the heart count follows the new flag and the thumbs-up count is unchanged |
| `Card.RecommendationCard.OpenFlagDialog` | recommendation-card.tsx:178-185 | opens the dialog and leaves `isFlagged` and all else unchanged |
| `Card.RecommendationCard.OnOpenChange` | recommendation-card.tsx:192-197 | the dialog follows `open`; a close sets `isFlagged`, an open leaves it as it was; it never goes back to false |
| `Card.RecommendationCard.HandleImageError` | recommendation-card.tsx:56-58 | sets the error latch, after which the image area shows "Image not available" |

## Left out

- Audio playback is not part of this model. `AudioPlayer` is imported
  (recommendation-card.tsx:9) but its source is not part of it. It uses
  browser media APIs. No one-player-at-a-time coordination appears in the
  code shown. Only the URL handed to it is modelled.
- The recording timer and media capture are not modelled, because no code
  shown ever advances `recordingTime`. It stays a field that no handler
  changes.
- Publication, submission and discard are not modelled. The Publish and
  Cancel buttons (page.tsx:140-142) have no handlers, so only the
  Publish button's `disabled` state is modelled.
- The internals of `FlagContentDialog` and `Toaster` are not part of this
  model. The dialog is modelled only through the `onOpenChange` calls it
  makes.
- Next `Image` loading, the avatar `onError` DOM rewrite
  (recommendation-card.tsx:90-93), `cn` class merging and the
  sentiment-to-style choice (recommendation-card.tsx:99-106) are
  presentation, so they are not modelled.
- The props fields the logic never reads are not modelled. These are user,
  location, coordinates, category, sentiment and verified. The props are
  a constant of the card, so a re-render with different props is not
  modelled.
- Strings are sequences of Unicode scalar values. JavaScript lengths and
  `substring` count UTF-16 code units, so texts with characters outside
  the Basic Multilingual Plane are measured differently. Truncation is
  not grapheme-safe, and no claim is made that it is.
- Record.FormatTime: takes a natural number only. The one value it ever
  receives is `recordingTime`, which is 0. JavaScript's results for
  negative or fractional times, and `toString`'s exponent notation from
  10^21 on, are not modelled.
- Card.DisplayedCount: counts are integers. A NaN count is not modelled.
- React's batching of state updates is not modelled. Each handler reads the
  state of the render it was created in and sets each field once, so
  sequential assignment gives the same result.
