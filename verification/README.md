# Typewriter Notes: a Dafny model of the note export core

A journaling app. The user answers one of twenty reflective questions on a
simulated typewriter, then saves a "note card" as a PNG image or a one-page
PDF. This project models the logic around that flow:

- **App shell** (`app.dfy`, module `App`). The screens HOME, EDITOR and EXPORT.
  The question index and the answer, the handlers the buttons call, and the
  guard that disables Finish for a blank answer. The export file name
  `YearlyNote_<year>_<slug>`, where the slug is the first ten characters of
  the question with every character that is not an ASCII letter or digit
  replaced by `_`. React state is modelled as an immutable record `AppState`.
  Each user action maps it to the next record (`Dispatch`). A control that is
  not on the current screen, or is disabled, does nothing.
- **Typewriter stage** (`typewriter_stage.dfy`). The classification of a text
  area change into an enter, key or backspace sound, a shake, and the new text.
- **Sound effects** (`audio_sfx.dfy`). The `Sfx` class holds the hook's
  `lastPlayTime`. A tone is dropped while muted, without an audio context,
  or less than 40 ms after the last tone that played. The key and enter
  sounds schedule a follow-up tone by timer. That tone is gated by the mute
  flag of the render that scheduled it. The ghost log of played tones
  is spaced by at least 40 ms. This holds for any clock, because
  `lastPlayTime` only moves when a tone plays.
- **Saving** (`save.dfy`). The `Browser` class holds the document body's
  classes and logs of capture calls, downloads and alerts. `ExportToPng` and
  `ExportToPdf` set `is-exporting` before the capture and remove it on every
  path. A failure becomes an alert. A success becomes a download named
  `<stem>.png` or `<stem>.pdf`. `PdfPlacement` is the fit-to-width,
  vertically centred placement of the image on the PDF page.
- Support modules. `JsText` holds the JavaScript primitives the code relies on:
  the decimal rendering of an integer, the whitespace set of `String.trim`,
  and truncating `%`. `Questions` holds the built-in question list.
  `Wrappers` holds `Option`.

Inputs the code takes from its environment are parameters:
- `Math.random()`, as a real in [0, 1).
- The current year.
- `Date.now()`.
- Whether the app runs inside the Capacitor shell.
- Whether the card element is mounted.
- Whether an audio context exists.
- The capture primitive of html-to-image, as a function from capture
  options to a data URL or a failure.
- The PDF library's reading of the image, as a function from the data URL to
  the image size, or none when the library throws.
- The PDF page size.

## What the export code does and does not do

Each exporter captures the card once. The PNG capture uses a pixel ratio of 3
(platform/save.ts:16) and the PDF capture a ratio of 2 (platform/save.ts:58).
Both skip font embedding. The PNG data URL goes directly into the download
link (platform/save.ts:41). There is no retry at a lower resolution, and no
browser-specific capture path. Nothing prevents a second export from
starting while one is running (App.tsx:56-70).

## Model

| member | source | states |
|---|---|---|
| App.Slug | App.tsx:61 | The slug has min(10, length) characters, so at most 10; every one is an ASCII letter, digit or `_`; an ASCII letter or digit among the first ten characters stays in place, any other character becomes `_` |
| App.SlugIdempotent | App.tsx:61 | Sanitizing a slug again returns it unchanged |
| App.FileStem | App.tsx:62 | The stem starts with `YearlyNote_` and holds only ASCII letters, digits and `_`, with a `-` only for a negative year |
| App.SplitStemRoundTrip | App.tsx:62 | The stem reads back as exactly the year and the slug: it is `"YearlyNote_" + decimal(year) + "_" + slug` with nothing ambiguous |
| App.SplitStemInverse | App.tsx:62 | Any stem that reads back as a year and a slug is `"YearlyNote_" + decimal(year) + "_" + slug`, so reading back determines the stem |
| App.FileStemInjective | App.tsx:59-62 | Two exports share a file name only when year and slug agree |
| App.ExampleStem | App.tsx:61-62 | "Hello, World! 2024" in 2025 gives `YearlyNote_2025_Hello__Wor` |
| App.Initial | App.tsx:13-19 | The app starts on HOME with the first question, an empty answer and the saved mute preference, in a valid state |
| App.HandleStart | App.tsx:41-47 | Start opens the editor on the random question and keeps the previous answer and the mute setting |
| App.RandomIndex | App.tsx:44 | The random start index names a question (0 to 19) |
| App.NextIndex | App.tsx:50 | The next index stays in [0, 20), is the successor below the last index, and wraps the last index to 0 |
| App.HandleNextQuestion | App.tsx:49-52 | Shuffle always clears the answer, keeps the route and mute setting, and keeps the index in range |
| App.ShuffledIndex | App.tsx:49-52 | k shuffles advance the index by k modulo 20, clear the answer and keep the route |
| App.ShuffleCycle | App.tsx:50 | Twenty shuffles, or any multiple of twenty, return to the starting question |
| App.FinishEnabledIffNotBlank | App.tsx:167 | Finish is enabled exactly when the answer is not whitespace-only |
| App.HandleNewNote | App.tsx:231-236 | New Note ends in the editor with an empty answer and the index advanced by one modulo 20 |
| App.Handle | App.tsx:41-236 | Each enabled control's effect: Start goes HOME to EDITOR on the random question; Home goes EDITOR to HOME; Shuffle advances the index and clears the answer; typing sets the answer to the new value; Clear empties it; Finish goes EDITOR to EXPORT; Edit goes EXPORT to EDITOR; New Note goes to EDITOR with an empty answer and the next index; only the mute toggle changes the mute setting; validity is preserved |
| App.Dispatch | App.tsx:165-167 | An action whose control is absent or disabled changes nothing, an enabled one acts as `Handle`; from the editor, the export screen is entered exactly by Finish with a non-blank answer; validity (index in range, export screen never blank) is preserved |
| App.Run | App.tsx:13-15 | Any sequence of actions from a valid state ends in a valid state |
| App.ReachableStatesValid | App.tsx:13-15 | Every state reachable from the initial HOME state has its index in range and no blank answer on the export screen |
| App.ExportFileStem | App.tsx:59-62 | The export stem of the current question reads back as the year and that question's slug; since decimal years have no leading zero (SplitStemInverse), this is the one string `YearlyNote_${year}_${safeQ}` |
| App.HandleExport | App.tsx:56-70 | Without a mounted card nothing happens. Otherwise the chosen exporter runs on the current question's stem, the PNG one without size overrides. The exporting class is cleared. A failed capture (or, for PDF, an unreadable image) gives that exporter's alert and no download. A success downloads the stem plus `.png` (not in the native shell) or `.pdf` |
| TypewriterStage.HandleChange | components/TypewriterStage.tsx:29-49 | The text always becomes the new value; equal length: no sound, no shake; shorter: backspace sound; longer ending in a newline: enter sound; longer ending otherwise: key sound; exactly one shake whenever the length changed |
| TypewriterStage.OnlyLengthsAndLastCharacterMatter | components/TypewriterStage.tsx:31-35 | Sound and shake depend only on the two lengths and the new value's last character |
| TypewriterStage.TypingAtEnd | components/TypewriterStage.tsx:33-41 | A character typed at the end plays the enter sound exactly when it is a newline, and shakes once |
| TypewriterStage.TypingInside | components/TypewriterStage.tsx:33-41 | A character typed before the end is classified by the text's existing last character, not by the typed one |
| TypewriterStage.DeletingAnywhere | components/TypewriterStage.tsx:42-45 | Deleting a character at any position plays the backspace sound and shakes once |
| TypewriterStage.OneReactionPerChange | components/TypewriterStage.tsx:33-46 | A change shakes at most once, and shakes exactly when it plays a sound |
| AudioSfx.Sfx.constructor | hooks/useAudioSfx.ts:5-19 | A mounted hook starts with `lastPlayTime` 0 and nothing played |
| AudioSfx.Sfx.SetMuted | hooks/useAudioSfx.ts:5-7 | A new mute setting keeps `lastPlayTime` |
| AudioSfx.Sfx.PlayToneOf | hooks/useAudioSfx.ts:27-33 | `playTone` of a render with a given `isMuted`: a tone plays exactly when that flag is off, there is a context, and at least 40 ms have passed since `lastPlayTime`; only then does `lastPlayTime` become `now`; the spacing invariant is kept |
| AudioSfx.Sfx.PlayTone | hooks/useAudioSfx.ts:27-33 | The same gate with the current render's mute flag |
| AudioSfx.Sfx.PlayKeySound | hooks/useAudioSfx.ts:53-58 | The thud goes through the gate now; the click is scheduled 10 ms later, carrying the current mute flag |
| AudioSfx.Sfx.PlayEnterSound | hooks/useAudioSfx.ts:60-64 | The carriage tone goes through the gate now; the bell is scheduled 100 ms later, carrying the current mute flag |
| AudioSfx.Sfx.PlayBackspaceSound | hooks/useAudioSfx.ts:66-69 | One scratch tone goes through the gate, with nothing scheduled |
| AudioSfx.Sfx.Fire | hooks/useAudioSfx.ts:57-63 | A timer's follow-up tone goes through the gate when it fires, with the mute flag of the render that scheduled it and the current `lastPlayTime` and context |
| AudioSfx.Sfx.PlayedTonesSpaced | hooks/useAudioSfx.ts:31-33 | Any two tones this hook played are at least 40 ms apart |
| AudioSfx.SpacedPairwise | hooks/useAudioSfx.ts:31-33 | In a history with 40 ms between neighbours, tones i < j are at least 40·(j − i) ms apart |
| AudioSfx.SilentWhenMutedOrNoContext | hooks/useAudioSfx.ts:28 | Muted or without a context, no request plays |
| AudioSfx.FirstRequestPlays | hooks/useAudioSfx.ts:7-33 | With `lastPlayTime` at its initial 0, a first request at time 40 or later plays |
| AudioSfx.ClickSwallowedByThud | hooks/useAudioSfx.ts:56-57 | A click firing less than 40 ms after a played thud is dropped; in particular a click whose 10 ms timer fires on time never plays after a thud that played |
| AudioSfx.BellNotBlockedByCarriage | hooks/useAudioSfx.ts:62-63 | With a clock that has not gone back and no tone in between, the bell 100 ms later is admitted whether or not the carriage played |
| Save.StyleLength | platform/save.ts:22-23 | A style size is set exactly for a present non-zero size, and reads back as that number followed by `px` |
| Save.StyleOverridesOnlyForNonZeroSizes | platform/save.ts:19-23 | The PNG capture sets width and height overrides exactly for present, non-zero options, each as the number followed by `px` |
| Save.PdfPlacement | platform/save.ts:73-78 | The image starts at x = 20 and spans the page width minus 40, with equal side margins; it keeps the image's aspect ratio; it is centred vertically with equal gaps; y is negative exactly when the image is taller than the page |
| Save.Browser.CaptureCard | platform/save.ts:14-31 | The capture is called once with the given options, and the call records whether `is-exporting` was set |
| Save.Browser.ExportToPng | platform/save.ts:5-50 | `is-exporting` is set during the capture and removed afterwards; on failure an alert and no download; on success a download `fileName.png` on the web and none in the native shell; the promise always resolves |
| Save.Browser.ExportToPdf | platform/save.ts:52-89 | `is-exporting` is set during the capture and removed afterwards; a capture or PDF library failure raises the PDF alert with no download; otherwise `fileName.pdf` holds the image at `PdfPlacement` |
| JsText.Decimal | App.tsx:62 | The decimal rendering of an integer is non-empty, all digits apart from a leading minus sign, has the sign exactly for a negative number, and has no leading zero (only 0 starts with `0`) |
| JsText.DecimalUnique | App.tsx:62 | Every minus-optional digit string without a leading zero (and not `-0`) is the rendering of the integer it denotes: each integer has exactly one such rendering |
| JsText.DecimalRoundTrip | App.tsx:62 | The decimal rendering of the year parses back to the year |
| JsText.Trim | App.tsx:167 | `trim()` is the input with a whitespace-only prefix and a whitespace-only suffix removed, and the result neither starts nor ends with whitespace |
| JsText.TrimEmptyIffBlank | App.tsx:167 | `trim()` gives the empty string exactly for a whitespace-only string |
| JsText.JsRem | App.tsx:50 | JavaScript's `%` agrees with the mathematical remainder on non-negative operands; for a negative dividend it is the truncated remainder `a + n * trunc(-a / n)`, in (-n, 0] |
| Questions.CountIsLength | data/questions.ts:3-24 | There are twenty built-in questions |

## Left out

- Persistence. The mute preference is read from and written to local storage
  (App.tsx:16-31), and the answer draft is saved (App.tsx:33-38). The saved
  mute preference is a parameter of `App.Initial`. Storage writes are not
  modelled.
- `unlockAudio`, the first step of `handleStart` (App.tsx:42). It resumes
  a suspended context of App's own hook instance (App.tsx:26), which never
  plays a tone; the typing stage's context is a different one and is never
  resumed. Audio synthesis: oscillators, gain envelopes, closing the
  context on unmount.
- `shareContent`, called after every PNG export, a failed capture included
  (App.tsx:66). platform/share.ts is not part of this model, so the share
  sheet and the fallback alert it shows on a web browser without
  `navigator.share` are not in `Browser`'s logs.
- App.HandleExport: after a PNG export on such a browser the alert log
  lacks the share fallback alert ("Sharing is not supported on this
  browser. Image downloaded instead."), which the source adds after the
  failure alert or after a successful download, because sharing is not
  modelled.
- The card size picker. It only changes how the card renders
  (components/NoteCard.tsx).
- Asynchrony. Each export runs to completion as one step. Two exports
  started close together, which the code does not prevent, are not
  interleaved. Timers are returned to the caller, who decides when they fire.
- `console.log` and `console.error` output.
- The app creates two instances of the sound hook (in `App` and in the
  typewriter stage), each with its own `lastPlayTime`. The model has one
  class per instance, and they do not interact.
- App.Slug: a model character is a Unicode scalar value. In JavaScript,
  `substring` and the replacement work on UTF-16 code units, so a
  character outside the Basic Multilingual Plane becomes two `_` in the
  source but one here. The built-in questions are ASCII.
- TypewriterStage.HandleChange: lengths count Unicode scalar values, not
  UTF-16 code units. Typing a character outside the Basic Multilingual Plane
  is classified by its last code unit in the source.
- JsText.Decimal: covers integers only. JavaScript writes numbers of 1e21 or
  more in exponent form, and writes fractions with a decimal point.
- Save.PdfPlacement: real arithmetic stands in for floating point. The
  image width that jsPDF reports is assumed positive. A zero width would
  divide by zero, which gives Infinity in JavaScript.
- App.RandomIndex: the draw is a real in [0, 1), not a double.
- Native shell saving is a TODO in the code (platform/save.ts:34-36). On
  Capacitor a PNG export does nothing visible, and the model records no
  download.
