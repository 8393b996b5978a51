/**
 * The "Record a Murmur" page (`RecordPage` in page.tsx): the capture state
 * kept in the component's `useState` variables, the handlers that change it,
 * and the two expressions the page recomputes on every render: the
 * `MM:SS` timer text and the Publish button's enabled state.
 */
module Record {
  import opened Wrappers
  import Js

  /** The six items of the category select. */
  datatype Category = Food | Travel | Shopping | Entertainment | Services | Other

  /** The `value` string each select item hands to `setCategory`. */
  function CategoryValue(c: Category): string {
    match c
    case Food => "food"
    case Travel => "travel"
    case Shopping => "shopping"
    case Entertainment => "entertainment"
    case Services => "services"
    case Other => "other"
  }

  /**
   * The string held in the `category` state: "" while nothing is chosen,
   * otherwise the chosen item's value.  Distinct choices give distinct
   * strings, so the typed state and the source's string state determine
   * each other.
   */
  function CategoryState(c: Option<Category>): (v: string)
    ensures v == "" <==> c.None?
  {
    match c
    case None => ""
    case Some(k) => CategoryValue(k)
  }

  /** Reads the `category` state string back; None for a string no item produces. */
  function ParseCategoryState(v: string): Option<Option<Category>> {
    if v == "" then Some(None)
    else if v == "food" then Some(Some(Food))
    else if v == "travel" then Some(Some(Travel))
    else if v == "shopping" then Some(Some(Shopping))
    else if v == "entertainment" then Some(Some(Entertainment))
    else if v == "services" then Some(Some(Services))
    else if v == "other" then Some(Some(Other))
    else None
  }

  lemma CategoryStateRoundTrip(c: Option<Category>)
    ensures ParseCategoryState(CategoryState(c)) == Some(c)
  {
  }

  lemma CategoryStateInjective(c: Option<Category>, d: Option<Category>)
    ensures CategoryState(c) == CategoryState(d) <==> c == d
  {
    CategoryStateRoundTrip(c);
    CategoryStateRoundTrip(d);
  }

  // ----------------------------------------------------------------- formatTime

  /** `n.toString().padStart(2, "0")`: exactly two characters below 100. */
  function Pad2(n: nat): (r: string)
    ensures |r| == Js.Max(2, |Js.NumberToString(n)|)
    ensures |r| == 2 <==> n < 100
  {
    Js.NumberToStringLength(n);
    Js.PadStart(Js.NumberToString(n), 2, '0')
  }

  /** `formatTime(time)`: whole minutes and remaining seconds, each padded to two digits. */
  function FormatTime(time: nat): (r: string)
    ensures |r| >= 5
    ensures r[|r| - 3] == ':'
  {
    Pad2(time / 60) + ":" + Pad2(time % 60)
  }

  /** A timer text read back: the number before the colon and the number after it. */
  datatype Clock = Clock(minutes: nat, seconds: nat)

  /** Splits at the first colon and reads both fields as decimal numerals. */
  function ParseClock(s: string): Option<Clock> {
    match Js.IndexOf(s, ':')
    case None => None
    case Some(k) =>
      match (Js.ParseNat(s[..k]), Js.ParseNat(s[k + 1..]))
      case (Some(m), Some(sec)) => Some(Clock(m, sec))
      case _ => None
  }

  /** The padded field is all digits and still denotes `n`. */
  lemma Pad2Value(n: nat)
    ensures Js.AllDigits(Pad2(n)) && Js.ParseNat(Pad2(n)) == Some(n)
  {
    var d := Js.NumberToString(n);
    var p := Pad2(n);
    var z := |p| - |d|;
    assert p == Js.Repeat('0', z) + d by {
      assert p[..z] == Js.Repeat('0', z);
      assert p == p[..z] + p[z..];
    }
    Js.DecimalValueLeadingZeros(z, d);
    Js.DecimalValueOfNumberToString(n);
  }

  /** Two digit fields around a colon are read back as the numbers they denote. */
  lemma ParseClockFields(m: string, s: string)
    requires m != [] && Js.AllDigits(m) && s != [] && Js.AllDigits(s)
    ensures ParseClock(m + ":" + s) == Some(Clock(Js.DecimalValue(m), Js.DecimalValue(s)))
  {
    var r := m + ":" + s;
    assert forall i :: 0 <= i < |m| ==> m[i] != ':' by {
      forall i | 0 <= i < |m| ensures m[i] != ':' {
        assert Js.IsDigit(m[i]);
      }
    }
    assert r == m + [':'] + s;
    Js.IndexOfAfterPrefix(m, ':', s);
    assert r[..|m|] == m;
    assert r[|m| + 1..] == s;
  }

  /**
   * Reading the timer text back gives the whole minutes and the remaining
   * seconds: the seconds are below 60 and 60 * minutes + seconds is the time.
   */
  lemma FormatTimeRoundTrip(time: nat)
    ensures ParseClock(FormatTime(time)) == Some(Clock(time / 60, time % 60))
    ensures var c := ParseClock(FormatTime(time)).value;
      c.seconds < 60 && 60 * c.minutes + c.seconds == time
  {
    Pad2Value(time / 60);
    Pad2Value(time % 60);
    ParseClockFields(Pad2(time / 60), Pad2(time % 60));
  }

  /**
   * The text is exactly five characters long exactly below 100 minutes
   * (6000 seconds); from then on the minutes are printed in full, never cut
   * to two digits.
   */
  lemma FormatTimeLength(time: nat)
    ensures |FormatTime(time)| == 3 + Js.Max(2, |Js.NumberToString(time / 60)|)
    ensures |FormatTime(time)| == 5 <==> time < 6000
  {
    Js.NumberToStringLength(time / 60);
    Js.NumberToStringLength(time % 60);
  }

  /** Zero is shown as "0" padded to "00". */
  lemma Pad2Zero()
    ensures Pad2(0) == "00"
  {
    assert Js.NumberToString(0) == ['0'];
    assert Js.Repeat('0', 1) == ['0'];
  }

  /** The text the page shows before anything happens. */
  lemma FormatTimeZero()
    ensures FormatTime(0) == "00:00"
  {
    Pad2Zero();
  }

  /** 100 minutes: the minutes field grows to three digits. */
  lemma FormatTimeHundredMinutes()
    ensures FormatTime(6000) == "100:00"
  {
    assert 6000 / 60 == 100 && 6000 % 60 == 0;
    assert Js.DigitChar(0) == '0' && Js.DigitChar(1) == '1';
    assert Js.NumberToString(1) == ['1'];
    assert Js.NumberToString(10) == Js.NumberToString(1) + [Js.DigitChar(0)];
    assert Js.NumberToString(100) == Js.NumberToString(10) + [Js.DigitChar(0)];
    assert Pad2(100) == Js.NumberToString(100);
    Pad2Zero();
  }

  // --------------------------------------------------------------- Publish button

  /** The Publish button is enabled: `!transcribedText.trim()` is false. */
  predicate PublishEnabled(transcribedText: string) {
    Js.Trim(transcribedText) != ""
  }

  /**
   * Publish is enabled exactly when the transcript holds a character that is
   * not whitespace; the empty and the whitespace-only transcripts disable it.
   */
  lemma PublishEnabledIff(transcribedText: string)
    ensures PublishEnabled(transcribedText)
      <==> exists i :: 0 <= i < |transcribedText| && !Js.IsWhitespace(transcribedText[i])
  {
    Js.TrimEmptyIff(transcribedText);
  }

  // --------------------------------------------------------------- the component

  /** The recording state the two booleans encode. */
  datatype Phase = Idle | Live | Paused

  /** The state of one mounted record page. */
  class RecordPage {
    var isRecording: bool
    var isPaused: bool
    /** No handler of the page changes it. */
    var recordingTime: nat
    var transcribedText: string
    var location: string
    var category: Option<Category>

    /** Paused only while recording. */
    ghost predicate Valid()
      reads this
    {
      isPaused ==> isRecording
    }

    /** The `useState` initial values. */
    constructor ()
      ensures Valid()
      ensures !isRecording && !isPaused && recordingTime == 0
      ensures transcribedText == "" && location == "" && category == None
    {
      isRecording, isPaused, recordingTime := false, false, 0;
      transcribedText, location, category := "", "", None;
    }

    /** The phase shown by the microphone icon and the two buttons. */
    function CurrentPhase(): (p: Phase)
      reads this
      requires Valid()
      ensures p == Idle <==> !isRecording
      ensures p == Paused <==> isPaused
    {
      if !isRecording then Idle else if isPaused then Paused else Live
    }

    /** The Pause/Resume button is rendered only while recording. */
    predicate PauseControlShown()
      reads this
    {
      isRecording
    }

    /** The timer text under the microphone. */
    function TimerText(): string
      reads this
    {
      FormatTime(recordingTime)
    }

    /** Whether the Publish button is enabled; location and category play no part. */
    predicate CanPublish()
      reads this
    {
      PublishEnabled(transcribedText)
    }

    /** The Start Recording / Stop button. */
    method ToggleRecording()
      requires Valid()
      modifies this
      ensures Valid()
      ensures isRecording == !old(isRecording) && !isPaused
      ensures CurrentPhase() == if old(CurrentPhase()) == Idle then Live else Idle
      ensures recordingTime == old(recordingTime)
      ensures transcribedText == old(transcribedText) && location == old(location)
      ensures category == old(category)
    {
      if !isRecording {
        isRecording := true;
        isPaused := false;
      } else {
        isRecording := false;
        isPaused := false;
      }
    }

    /** The Pause/Resume button. */
    method TogglePause()
      requires Valid() && PauseControlShown()
      modifies this
      ensures Valid()
      ensures isPaused == !old(isPaused) && isRecording == old(isRecording)
      ensures CurrentPhase() == if old(CurrentPhase()) == Live then Paused else Live
      ensures recordingTime == old(recordingTime)
      ensures transcribedText == old(transcribedText) && location == old(location)
      ensures category == old(category)
    {
      isPaused := !isPaused;
    }

    /** The transcript textarea's `onChange`, in every recording phase. */
    method SetTranscribedText(value: string)
      requires Valid()
      modifies this
      ensures Valid()
      ensures transcribedText == value
      ensures isRecording == old(isRecording) && isPaused == old(isPaused)
      ensures recordingTime == old(recordingTime)
      ensures location == old(location) && category == old(category)
    {
      transcribedText := value;
    }

    /** The location input's `onChange`, in every recording phase. */
    method SetLocation(value: string)
      requires Valid()
      modifies this
      ensures Valid()
      ensures location == value
      ensures isRecording == old(isRecording) && isPaused == old(isPaused)
      ensures recordingTime == old(recordingTime)
      ensures transcribedText == old(transcribedText) && category == old(category)
    {
      location := value;
    }

    /** The category select's `onValueChange`, called with one item's value. */
    method SetCategory(c: Category)
      requires Valid()
      modifies this
      ensures Valid()
      ensures category == Some(c) && CategoryState(category) == CategoryValue(c)
      ensures isRecording == old(isRecording) && isPaused == old(isPaused)
      ensures recordingTime == old(recordingTime)
      ensures transcribedText == old(transcribedText) && location == old(location)
    {
      category := Some(c);
    }
  }
}
