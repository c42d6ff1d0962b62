/**
 * `QuestionDisplay`: the image list parsed from the question's `image_url`,
 * the carousel index, the selected answer and submit guard, the urgency
 * colouring and which buttons are enabled.
 */
module QuestionDisplay {
  import opened Common
  import opened Text
  import opened Rules
  import opened Session
  import opened QuestionBank
  import AnswerStats

  /** The answer options offered, in order. */
  const Options: seq<char> := ['A', 'B', 'C', 'D']

  /** The options offered are exactly the four answers the statistics table counts. */
  lemma OptionsAreTheColumns()
    ensures |Options| == 4
    ensures forall i, j :: 0 <= i < j < |Options| ==> Options[i] != Options[j]
    ensures forall c :: c in Options <==> AnswerStats.HasColumn(c)
  {
  }

  /** Each piece trimmed. */
  function TrimEach(parts: seq<string>): (r: seq<string>)
    ensures |r| == |parts|
    ensures forall k :: 0 <= k < |r| ==> r[k] == Trim(parts[k])
  {
    if parts == [] then [] else [Trim(parts[0])] + TrimEach(parts[1..])
  }

  /** `imageUrls`: the comma-separated field split and trimmed; none when absent or empty. */
  function ImageUrls(imageUrl: Option<string>): seq<string> {
    if imageUrl.None? || imageUrl.value == [] then []
    else TrimEach(Split(imageUrl.value, ','))
  }

  predicate HasMultipleImages(urls: seq<string>) {
    |urls| > 1
  }

  /**
   * A present, non-empty field gives one image per comma plus one, each
   * free of commas and of surrounding white space; there are several
   * images exactly when the field holds a comma. No field, no images.
   */
  lemma ImageUrlsParse(imageUrl: Option<string>)
    ensures imageUrl.None? || imageUrl.value == [] ==> ImageUrls(imageUrl) == []
    ensures imageUrl.Some? && imageUrl.value != [] ==>
      && |ImageUrls(imageUrl)| == multiset(imageUrl.value)[','] + 1
      && (HasMultipleImages(ImageUrls(imageUrl)) <==> ',' in imageUrl.value)
    ensures forall k :: 0 <= k < |ImageUrls(imageUrl)| ==>
      var url := ImageUrls(imageUrl)[k];
      ',' !in url && (url == [] || (!IsSpace(url[0]) && !IsSpace(url[|url| - 1])))
  {
    if imageUrl.Some? && imageUrl.value != [] {
      var parts := Split(imageUrl.value, ',');
      SplitCount(imageUrl.value, ',');
      forall k | 0 <= k < |parts| ensures ',' !in Trim(parts[k]) {
        TrimHasNoNewChars(parts[k], ',');
      }
    }
  }

  /** Trimming only removes characters. */
  lemma TrimHasNoNewChars(s: string, c: char)
    requires c !in s
    ensures c !in Trim(s)
  {
    var i, j :| 0 <= i <= j <= |s| && Trim(s) == s[i..j];
  }

  /** `nextImage`. */
  function NextIndex(i: int, n: nat): int
    requires n > 0
  {
    (i + 1) % n
  }

  /** `prevImage`. */
  function PrevIndex(i: int, n: nat): int
    requires n > 0
  {
    (i - 1 + n) % n
  }

  /**
   * On a carousel of `n` images both buttons keep the index among the
   * images, wrap around at the ends, and undo each other.
   */
  lemma CarouselWraps(i: int, n: nat)
    requires 0 <= i < n
    ensures 0 <= NextIndex(i, n) < n && 0 <= PrevIndex(i, n) < n
    ensures NextIndex(i, n) == (if i == n - 1 then 0 else i + 1)
    ensures PrevIndex(i, n) == (if i == 0 then n - 1 else i - 1)
    ensures PrevIndex(NextIndex(i, n), n) == i && NextIndex(PrevIndex(i, n), n) == i
  {
    if i == n - 1 {
      ModUnique(i + 1, n, 1, 0);
      ModUnique(0 - 1 + n, n, 0, n - 1);
    } else {
      ModUnique(i + 1, n, 0, i + 1);
      ModUnique(i + 1 - 1 + n, n, 1, i);
    }
    if i == 0 {
      ModUnique(i - 1 + n, n, 0, n - 1);
      ModUnique(n - 1 + 1, n, 1, 0);
    } else {
      ModUnique(i - 1 + n, n, 1, i - 1);
      ModUnique(i - 1 + 1, n, 0, i);
    }
  }

  /** The index after pressing "next" `k` times. */
  function Advanced(i: int, n: nat, k: nat): int
    requires n > 0
    decreases k
  {
    if k == 0 then i else NextIndex(Advanced(i, n, k - 1), n)
  }

  /** Pressing "next" `k` times moves `k` places round the carousel. */
  lemma {:induction false} AdvancedIs(i: int, n: nat, k: nat)
    requires 0 <= i < n
    ensures Advanced(i, n, k) == (i + k) % n
    decreases k
  {
    if k == 0 {
      ModUnique(i, n, 0, i);
    } else {
      AdvancedIs(i, n, k - 1);
      NextOfRemainder(Advanced(i, n, k - 1), i + k - 1, n);
    }
  }

  /** Pressing "next" once per image comes back to the image it started from. */
  lemma FullTurn(i: int, n: nat)
    requires 0 <= i < n
    ensures Advanced(i, n, n) == i
  {
    AdvancedIs(i, n, n);
    ModUnique(i + n, n, 1, i);
  }

  lemma NextOfRemainder(j: int, a: nat, n: nat)
    requires n > 0 && j == a % n
    ensures NextIndex(j, n) == (a + 1) % n
  {
    ModStep(a, n);
  }

  lemma ModStep(a: nat, n: nat)
    requires n > 0
    ensures (a % n + 1) % n == (a + 1) % n
  {
    var q, r := a / n, a % n;
    if r + 1 == n {
      ModUnique(a + 1, n, q + 1, 0);
      ModUnique(r + 1, n, 1, 0);
    } else {
      ModUnique(a + 1, n, q, r + 1);
      ModUnique(r + 1, n, 0, r + 1);
    }
  }

  /** Euclidean division has one remainder. */
  lemma ModUnique(a: int, n: int, q: int, r: int)
    requires n > 0 && 0 <= r < n && a == q * n + r
    ensures a % n == r
  {
    var d := a / n - q;
    assert d * n == r - a % n;
    MulSign(d, n);
  }

  lemma MulSign(d: int, n: int)
    requires n > 0
    ensures d >= 1 ==> d * n >= n
    ensures d <= -1 ==> d * n <= -n
  {
  }

  /** `isUrgent`: the clock turns red at ten seconds or less. */
  predicate IsUrgent(timeLeft: int) {
    timeLeft <= 10
  }

  /**
   * No question starts urgent: the clock turns red only after the first
   * `TimeLimit - 10` seconds, and a timeout only ever happens while it is red.
   */
  lemma UrgencyWindow(rung: int, elapsed: nat)
    ensures !IsUrgent(TimeLimit(rung))
    ensures IsUrgent(TimeLimit(rung) - elapsed) <==> elapsed >= TimeLimit(rung) - 10
  {
  }

  lemma TimeoutOnlyWhenUrgent(s: State, timeTaken: nat, totalTime: nat)
    requires Inv(s)
    requires Ticked(s, timeTaken, totalTime).gamePhase == FeedbackPhase && s.gamePhase == QuestionPhase
    ensures IsUrgent(s.timeLeft)
  {
  }

  /** Which buttons are enabled. */
  datatype Controls = Controls(submit: bool, askAudience: bool, safetyNet: bool, pass: bool)

  /** The buttons for the session `s` and the selected answer. */
  function ControlsFor(selectedAnswer: Option<char>, s: State): Controls {
    var available := Lifelines(!s.lifelinesUsed.askAudience, !s.lifelinesUsed.safetyNet);
    Controls(selectedAnswer.Some?,
             available.askAudience,
             available.safetyNet && !s.safetyNetActive,
             s.passesRemaining != 0)
  }

  /**
   * Each lifeline and pass button is enabled exactly when pressing it has
   * an effect on the session; submit exactly when an answer is selected.
   */
  lemma ControlsMatchHandlers(selectedAnswer: Option<char>, s: State, rows: map<int, AnswerStats.StatsRow>,
                              askFails: bool, table: seq<Question>, pick: nat, fails: bool)
    requires Inv(s) && s.currentQuestion.Some?
    ensures var c := ControlsFor(selectedAnswer, s);
      && (c.submit <==> selectedAnswer.Some?)
      && (c.askAudience <==> AudienceAsked(s, rows, askFails) != s)
      && (c.safetyNet <==> SafetyNetTaken(s) != s)
      && (c.pass <==> Passed(s, table, pick, fails).passesRemaining != s.passesRemaining)
  {
  }

  /** The question panel's own state: the selection and the carousel index. */
  class QuestionPanel {
    const imageUrls: seq<string>
    var selectedAnswer: Option<char>
    var currentImageIndex: int

    ghost predicate Valid()
      reads this
    {
      if |imageUrls| == 0 then currentImageIndex == 0 else 0 <= currentImageIndex < |imageUrls|
    }

    /** The panel mounted for a question with the given `image_url`. */
    constructor (imageUrl: Option<string>)
      ensures imageUrls == ImageUrls(imageUrl)
      ensures selectedAnswer == None && currentImageIndex == 0
      ensures Valid()
    {
      imageUrls := ImageUrls(imageUrl);
      selectedAnswer := None;
      currentImageIndex := 0;
    }

    /** `handleAnswerSelect`. */
    method HandleAnswerSelect(answer: char)
      modifies this`selectedAnswer
      ensures selectedAnswer == Some(answer)
    {
      selectedAnswer := Some(answer);
    }

    /** `handleSubmit`: hand the selected answer to `onAnswer`, if there is one. */
    method HandleSubmit() returns (submitted: Option<char>)
      ensures submitted.Some? <==> selectedAnswer.Some?
      ensures submitted.Some? ==> submitted.value == selectedAnswer.value
    {
      submitted := None;
      if selectedAnswer.Some? {
        submitted := Some(selectedAnswer.value);
      }
    }

    /** The image shown. */
    function CurrentImage(): string
      reads this
      requires Valid() && |imageUrls| > 0
    {
      imageUrls[currentImageIndex]
    }

    /** `nextImage`. */
    method NextImage()
      requires Valid() && |imageUrls| > 0
      modifies this`currentImageIndex
      ensures currentImageIndex == NextIndex(old(currentImageIndex), |imageUrls|)
      ensures Valid()
    {
      CarouselWraps(currentImageIndex, |imageUrls|);
      currentImageIndex := (currentImageIndex + 1) % |imageUrls|;
    }

    /** `prevImage`. */
    method PrevImage()
      requires Valid() && |imageUrls| > 0
      modifies this`currentImageIndex
      ensures currentImageIndex == PrevIndex(old(currentImageIndex), |imageUrls|)
      ensures Valid()
    {
      CarouselWraps(currentImageIndex, |imageUrls|);
      currentImageIndex := (currentImageIndex - 1 + |imageUrls|) % |imageUrls|;
    }

    /** A thumbnail click: `setCurrentImageIndex(index)`. */
    method SelectImage(index: int)
      requires Valid() && 0 <= index < |imageUrls|
      modifies this`currentImageIndex
      ensures currentImageIndex == index && CurrentImage() == imageUrls[index]
      ensures Valid()
    {
      currentImageIndex := index;
    }
  }
}
