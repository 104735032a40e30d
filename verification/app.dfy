/**
 * The application shell (App.tsx): three screens (home, editor, export
 * preview), the current question index and the answer being typed, the
 * handlers the buttons call, and the file name an export is saved under.
 */
module App {
  import opened Wrappers
  import opened JsText
  import Questions
  import TypewriterStage
  import Save

  // ---------------------------------------------------------------------
  // Export file name
  // ---------------------------------------------------------------------

  /** Characters the pattern `/[^a-z0-9]/gi` leaves alone. */
  predicate IsAsciiAlnum(c: char) {
    'a' <= c <= 'z' || 'A' <= c <= 'Z' || IsDigit(c)
  }

  predicate IsSlugChar(c: char) {
    IsAsciiAlnum(c) || c == '_'
  }

  /** How many leading characters of the question the slug keeps. */
  const SlugLength: nat := 10

  const StemPrefix := "YearlyNote_"

  function Min(a: nat, b: nat): nat {
    if a <= b then a else b
  }

  /**
   * `text.substring(0, 10).replace(/[^a-z0-9]/gi, '_')`: the first ten
   * characters (fewer for a shorter text), each one that is not an ASCII
   * letter or digit replaced by an underscore.
   */
  function Slug(text: string): (slug: string)
    ensures |slug| == Min(SlugLength, |text|) && |slug| <= SlugLength
    ensures forall i :: 0 <= i < |slug| ==> IsSlugChar(slug[i])
    ensures forall i :: 0 <= i < |slug| ==>
      (IsAsciiAlnum(text[i]) ==> slug[i] == text[i]) && (!IsAsciiAlnum(text[i]) ==> slug[i] == '_')
  {
    var head := text[..Min(SlugLength, |text|)];
    seq(|head|, i requires 0 <= i < |head| => if IsAsciiAlnum(head[i]) then head[i] else '_')
  }

  /** Sanitizing a slug again changes nothing. */
  lemma SlugIdempotent(text: string)
    ensures Slug(Slug(text)) == Slug(text)
  {
  }

  /** `YearlyNote_${year}_${safeQ}`. */
  function FileStem(year: int, questionText: string): (stem: string)
    ensures |stem| > |StemPrefix| && stem[..|StemPrefix|] == StemPrefix
    ensures forall i :: 0 <= i < |stem| ==> IsSlugChar(stem[i]) || (stem[i] == '-' && year < 0)
  {
    StemPrefix + Decimal(year) + "_" + Slug(questionText)
  }

  /** The index of the first underscore in `s`, or `|s|` if there is none. */
  function FirstUnderscore(s: string): (k: nat)
    ensures k <= |s|
    ensures forall i :: 0 <= i < k ==> s[i] != '_'
    ensures k < |s| ==> s[k] == '_'
  {
    if s == [] || s[0] == '_' then 0 else 1 + FirstUnderscore(s[1..])
  }

  /** Reads a file stem back into its year and slug. */
  function SplitStem(stem: string): Option<(int, string)> {
    if |stem| < |StemPrefix| || stem[..|StemPrefix|] != StemPrefix then None
    else
      var rest := stem[|StemPrefix|..];
      var k := FirstUnderscore(rest);
      if k < |rest| && IsDecimal(rest[..k]) then Some((ParseDecimal(rest[..k]), rest[k + 1..])) else None
  }

  /** A file stem determines the year and the slug it was built from. */
  lemma SplitStemRoundTrip(year: int, questionText: string)
    ensures SplitStem(FileStem(year, questionText)) == Some((year, Slug(questionText)))
  {
    var d := Decimal(year);
    var stem := FileStem(year, questionText);
    var rest := stem[|StemPrefix|..];
    assert rest == d + "_" + Slug(questionText);
    var k := FirstUnderscore(rest);
    assert rest[|d|] == '_';
    assert k == |d|;
    assert rest[..k] == d;
    assert rest[k + 1..] == Slug(questionText);
    DecimalRoundTrip(year);
  }

  /**
   * Conversely, a stem that reads back as a year and a slug is the stem
   * built from exactly those, so reading back pins the stem down.
   */
  lemma SplitStemInverse(stem: string, year: int, slug: string)
    requires SplitStem(stem) == Some((year, slug))
    ensures stem == StemPrefix + Decimal(year) + "_" + slug
  {
    var rest := stem[|StemPrefix|..];
    var k := FirstUnderscore(rest);
    DecimalUnique(rest[..k]);
    assert rest == rest[..k] + "_" + rest[k + 1..];
    assert stem == StemPrefix + rest;
  }

  /** Two exports get the same file name only for the same year and slug. */
  lemma FileStemInjective(y1: int, t1: string, y2: int, t2: string)
    requires FileStem(y1, t1) == FileStem(y2, t2)
    ensures y1 == y2 && Slug(t1) == Slug(t2)
  {
    SplitStemRoundTrip(y1, t1);
    SplitStemRoundTrip(y2, t2);
  }

  // ---------------------------------------------------------------------
  // Screens and state
  // ---------------------------------------------------------------------

  datatype Route = Home | Editor | Export

  /** The component state: route, question index, answer, mute preference. */
  datatype AppState = AppState(route: Route, qIndex: int, answer: string, muted: bool)

  /** `Math.random()`: a real number in [0, 1). */
  type UnitInterval = r: real | 0.0 <= r < 1.0

  /** The state on mount; the mute preference comes from storage. */
  function Initial(savedMuted: bool): (s: AppState)
    ensures Valid(s) && s.route == Home && s.qIndex == 0 && s.answer == "" && s.muted == savedMuted
  {
    AppState(Home, 0, "", savedMuted)
  }

  /**
   * What holds in every reachable state: the index names a question, and
   * the export screen never shows a blank answer.
   */
  ghost predicate Valid(s: AppState) {
    && 0 <= s.qIndex < Questions.Count
    && (s.route == Export ==> !IsBlank(s.answer))
  }

  /** `Math.floor(Math.random() * QUESTIONS.length)`. */
  function RandomIndex(r: UnitInterval): (i: int)
    ensures 0 <= i < Questions.Count
  {
    (r * Questions.Count as real).Floor
  }

  /** `(prev + 1) % QUESTIONS.length`. */
  function NextIndex(prev: int): (next: int)
    ensures 0 <= prev < Questions.Count ==> 0 <= next < Questions.Count
    ensures 0 <= prev < Questions.Count - 1 ==> next == prev + 1
    ensures prev == Questions.Count - 1 ==> next == 0
  {
    JsRem(prev + 1, Questions.Count)
  }

  /** `handleStart`: a random question, then the editor. */
  function HandleStart(s: AppState, random: UnitInterval): (t: AppState)
    ensures t.route == Editor && t.qIndex == RandomIndex(random) && 0 <= t.qIndex < Questions.Count
    ensures t.answer == s.answer && t.muted == s.muted
  {
    s.(qIndex := RandomIndex(random), route := Editor)
  }

  /** `handleNextQuestion`: the next question, and the answer cleared. */
  function HandleNextQuestion(s: AppState): (t: AppState)
    ensures t.answer == "" && t.route == s.route && t.muted == s.muted
    ensures 0 <= s.qIndex < Questions.Count ==> 0 <= t.qIndex < Questions.Count
  {
    s.(qIndex := NextIndex(s.qIndex), answer := "")
  }

  /** The Finish button is enabled unless `answer.trim()` is empty. */
  predicate FinishEnabled(answer: string) {
    Trim(answer) != ""
  }

  lemma FinishEnabledIffNotBlank(answer: string)
    ensures FinishEnabled(answer) <==> !IsBlank(answer)
  {
    TrimEmptyIffBlank(answer);
  }

  /** "New Note": clear the answer, advance the question, back to the editor. */
  function HandleNewNote(s: AppState): (t: AppState)
    requires 0 <= s.qIndex < Questions.Count
    ensures t.route == Editor && t.answer == "" && t.muted == s.muted
    ensures t.qIndex == (s.qIndex + 1) % Questions.Count
  {
    HandleNextQuestion(s.(answer := "")).(route := Editor)
  }

  /** A user action: a button press or a change of the answer text area. */
  datatype Action =
    | ClickStart(random: UnitInterval)  // home: "Start Typing"
    | ClickMute                         // home: mute toggle
    | ClickHome                         // editor: "Home"
    | ClickShuffle                      // editor: "Shuffle"
    | TypeAnswer(newValue: string)      // editor: the text area changed
    | ClickClear                        // editor: "Clear"
    | ClickFinish                       // editor: "Finish"
    | ClickEdit                         // export: "Edit"
    | ClickNewNote                      // export: "New Note"

  /** Whether the current screen renders the control, and the control is enabled. */
  predicate Enabled(s: AppState, a: Action) {
    match a
    case ClickStart(_) => s.route == Home
    case ClickMute => s.route == Home
    case ClickHome => s.route == Editor
    case ClickShuffle => s.route == Editor
    case TypeAnswer(_) => s.route == Editor
    case ClickClear => s.route == Editor
    case ClickFinish => s.route == Editor && FinishEnabled(s.answer)
    case ClickEdit => s.route == Export
    case ClickNewNote => s.route == Export
  }

  /**
   * What an enabled control does: the route, question index and answer
   * after each handler. Only the mute toggle changes the mute setting.
   */
  function Handle(s: AppState, a: Action): (t: AppState)
    requires Valid(s) && Enabled(s, a)
    ensures Valid(t)
    ensures a != ClickMute ==> t.muted == s.muted
    ensures match a
      case ClickStart(r) => t.route == Editor && t.qIndex == RandomIndex(r) && t.answer == s.answer
      case ClickMute => t == s.(muted := !s.muted)
      case ClickHome => t.route == Home && t.qIndex == s.qIndex && t.answer == s.answer
      case ClickShuffle => t.route == Editor && t.qIndex == NextIndex(s.qIndex) && t.answer == ""
      case TypeAnswer(v) => t.route == Editor && t.qIndex == s.qIndex && t.answer == v
      case ClickClear => t.route == Editor && t.qIndex == s.qIndex && t.answer == ""
      case ClickFinish => t.route == Export && t.qIndex == s.qIndex && t.answer == s.answer
      case ClickEdit => t.route == Editor && t.qIndex == s.qIndex && t.answer == s.answer
      case ClickNewNote => t.route == Editor && t.qIndex == (s.qIndex + 1) % Questions.Count && t.answer == ""
  {
    match a
    case ClickStart(r) => HandleStart(s, r)
    case ClickMute => s.(muted := !s.muted)
    case ClickHome => s.(route := Home)
    case ClickShuffle => HandleNextQuestion(s)
    case TypeAnswer(v) => s.(answer := TypewriterStage.HandleChange(s.answer, v).text)
    case ClickClear => s.(answer := "")
    case ClickFinish => FinishEnabledIffNotBlank(s.answer); s.(route := Export)
    case ClickEdit => s.(route := Editor)
    case ClickNewNote => HandleNewNote(s)
  }

  /**
   * The effect of one action. A control that is not on screen, or is
   * disabled, does nothing. The export screen is entered from the editor
   * exactly by Finish with an answer that is not blank, and every action
   * keeps the state valid.
   */
  function Dispatch(s: AppState, a: Action): (t: AppState)
    requires Valid(s)
    ensures Valid(t)
    ensures !Enabled(s, a) ==> t == s
    ensures Enabled(s, a) ==> t == Handle(s, a)
    ensures t.route == Export ==>
      s.route == Export || (s.route == Editor && a == ClickFinish && !IsBlank(s.answer))
    ensures s.route == Editor && a == ClickFinish && !IsBlank(s.answer) ==> t.route == Export
  {
    FinishEnabledIffNotBlank(s.answer);
    if !Enabled(s, a) then s else Handle(s, a)
  }

  /** A sequence of actions, applied in order. */
  function Run(s: AppState, actions: seq<Action>): (t: AppState)
    requires Valid(s)
    ensures Valid(t)
    decreases |actions|
  {
    if actions == [] then s else Run(Dispatch(s, actions[0]), actions[1..])
  }

  /** Every state reached from the initial one is valid. */
  lemma ReachableStatesValid(savedMuted: bool, actions: seq<Action>)
    ensures Valid(Initial(savedMuted)) && Valid(Run(Initial(savedMuted), actions))
  {
  }

  /** Pressing Shuffle `k` times in the editor. */
  function Shuffled(s: AppState, k: nat): AppState
    decreases k
  {
    if k == 0 then s else HandleNextQuestion(Shuffled(s, k - 1))
  }

  /** `k` shuffles advance the index by `k`, wrapping around; they clear the answer. */
  lemma {:induction false} ShuffledIndex(s: AppState, k: nat)
    requires 0 <= s.qIndex < Questions.Count
    ensures Shuffled(s, k).qIndex == (s.qIndex + k) % Questions.Count
    ensures k > 0 ==> Shuffled(s, k).answer == ""
    ensures Shuffled(s, k).route == s.route
  {
    if k > 0 {
      ShuffledIndex(s, k - 1);
    }
  }

  /**
   * After one shuffle per question (or any multiple of the question count)
   * the original question is back.
   */
  lemma ShuffleCycle(s: AppState, k: nat)
    requires 0 <= s.qIndex < Questions.Count
    requires k % Questions.Count == 0
    ensures Shuffled(s, k).qIndex == s.qIndex
  {
    ShuffledIndex(s, k);
    ShiftByWholeRounds(s.qIndex, k / Questions.Count);
    assert k == Questions.Count * (k / Questions.Count);
  }

  /** Adding whole rounds of the question count does not change the remainder. */
  lemma {:induction false} ShiftByWholeRounds(i: int, m: nat)
    requires 0 <= i < Questions.Count
    ensures (i + Questions.Count * m) % Questions.Count == i
  {
    if m > 0 {
      ShiftByWholeRounds(i, m - 1);
      assert i + Questions.Count * m == (i + Questions.Count * (m - 1)) + Questions.Count;
    }
  }

  // ---------------------------------------------------------------------
  // Export
  // ---------------------------------------------------------------------

  datatype ExportKind = Png | Pdf

  /** The file name an export of the current question is saved under, without extension. */
  function ExportFileStem(s: AppState, year: int): (stem: string)
    requires 0 <= s.qIndex < |Questions.Texts|
    ensures SplitStem(stem) == Some((year, Slug(Questions.Texts[s.qIndex])))
  {
    SplitStemRoundTrip(year, Questions.Texts[s.qIndex]);
    FileStem(year, Questions.Texts[s.qIndex])
  }

  /**
   * `handleExport`: nothing at all without a rendered card; otherwise the
   * chosen exporter runs on the stem of the current question and the
   * current year, with no size override for the PNG.
   */
  method HandleExport(s: AppState, kind: ExportKind, cardPresent: bool, year: int,
                      browser: Save.Browser, isCapacitor: bool,
                      toPng: Save.CaptureOptions -> Save.Capture,
                      imageProps: string -> Option<Save.ImageProps>, page: Save.PageSize)
    requires Valid(s)
    modifies browser
    ensures !cardPresent ==> unchanged(browser)
    ensures cardPresent ==> browser.bodyClasses == old(browser.bodyClasses) - {Save.ExportingClass}
    ensures cardPresent && kind == Png ==>
      var opts := Save.PngCaptureOptions(Save.SizeOptions(None, None));
      && browser.captures == old(browser.captures) + [Save.CaptureCall(opts, true)]
      && match toPng(opts)
        case CaptureFailed =>
          browser.downloads == old(browser.downloads) && browser.alerts == old(browser.alerts) + [Save.PngFailureAlert]
        case Captured(url) =>
          && browser.alerts == old(browser.alerts)
          && browser.downloads == old(browser.downloads) +
               (if isCapacitor then [] else [Save.Download(ExportFileStem(s, year) + ".png", Save.PngImage(url))])
    ensures cardPresent && kind == Pdf ==>
      && browser.captures == old(browser.captures) + [Save.CaptureCall(Save.PdfCaptureOptions, true)]
      && match toPng(Save.PdfCaptureOptions)
        case CaptureFailed =>
          browser.downloads == old(browser.downloads) && browser.alerts == old(browser.alerts) + [Save.PdfFailureAlert]
        case Captured(url) =>
          match imageProps(url)
          case None =>
            browser.downloads == old(browser.downloads) && browser.alerts == old(browser.alerts) + [Save.PdfFailureAlert]
          case Some(img) =>
            && browser.alerts == old(browser.alerts)
            && browser.downloads == old(browser.downloads) +
                 [Save.Download(ExportFileStem(s, year) + ".pdf", Save.PdfDocument(url, Save.PdfPlacement(page, img)))]
  {
    if !cardPresent {
      return;
    }
    var fileName := ExportFileStem(s, year);
    match kind {
      case Png =>
        browser.ExportToPng(fileName, Save.SizeOptions(None, None), isCapacitor, toPng);
      case Pdf =>
        browser.ExportToPdf(fileName, toPng, imageProps, page);
    }
  }

  /** "Hello, World! 2024" exported in 2025 is saved as `YearlyNote_2025_Hello__Wor`. */
  lemma ExampleStem()
    ensures FileStem(2025, "Hello, World! 2024") == "YearlyNote_2025_Hello__Wor"
  {
    var text := "Hello, World! 2024";
    var slug := Slug(text);
    assert slug[5] == '_' && slug[6] == '_' by {
      assert text[5] == ',' && text[6] == ' ';
    }
    assert slug == "Hello__Wor";
    assert Decimal(2025) == "2025";
  }

}
