# Voice-Converter: transcription session and speech request controller

This project models, in Dafny, the two pieces of sequential logic in the
Voice-Converter web app:

- **The speech-to-text panel** (`src/components/STT.jsx`):
  - the session flags `isListening` and `isPaused`, driven by the start,
    pause, resume and stop controls and by the recognizer's `onerror` and
    `onend` callbacks;
  - the transcript buffer: `onresult` appends final results to it, replaces
    the interim text and recomputes the word count, and `clearTranscript`
    resets it;
  - the pure text helpers: the word-count expression, `formatTime`, the
    "Format Text" rewrite and the integer figures of "View Stats".
- **The text-to-speech panel** (`src/components/TTS.jsx`):
  - the voice catalog and its default (`loadVoices`);
  - the "Preparing" and "Speaking" flags;
  - `handleSpeak`, with its 300 ms delayed hand-over of an utterance to the
    synthesizer and that utterance's `onstart`/`onend` callbacks;
  - `handleStop`, the guard that disables the Speak button, and the input
    `onChange` handlers.

The platform recognizer and synthesizer are treated as sources of events.
Each React handler is one atomic update of the component's current state.

Modules:

- `Wrappers`: `Option`.
- `JsString`: ECMAScript whitespace and the three trims.
- `JsSplit`: `split` by a run of one character class, and by one character,
  each with a reference count it is proved against.
- `SttText`: the word count and "View Stats".
- `SttFormat`: "Format Text".
- `SttClock`: `formatTime`.
- `Stt`: the `SttSession` class and the `onresult` loop.
- `Tts`: the `TtsController` class.

Where the written description of the app and the code disagree, the model
follows the code:

- The default voice is the catalog entry at index 10, not the first one.
- `pauseListening` does not clear the interim text. In the app, the
  stopped recognizer's `onend` can still see an older `isPaused` of false,
  and then it clears the interim text and `isListening`. The model runs each
  handler atomically on the current state, so its `onend` sees the session
  paused and changes nothing.
- A recognizer error clears `isListening` but leaves `isPaused` as it was.
  So after an error while paused the two flags disagree
  (`Stt.ErrorWhilePaused`).

## Model

| member | source | states |
|---|---|---|
| Stt.ScanResults | src/components/STT.jsx:60-74 | The loop over `event.results` from `resultIndex` returns exactly the final texts (each followed by one space), the non-final texts run together, and the last final's score; results before `resultIndex` are not visited |
| Stt.FinalText | src/components/STT.jsx:64-69 | Defined as each final result's text followed by one space, in index order; its properties are FinalTextEmpty, FinalTextConcat and SegmentTexts |
| Stt.InterimText | src/components/STT.jsx:64-73 | Defined as the non-final results' texts run together, in index order; its properties are InterimTextConcat, SegmentTexts and InterimOfFinals |
| Stt.LastConfidence | src/components/STT.jsx:64-70 | Defined as the score of the last final result, or 0 when there is none |
| Stt.SliceStep | src/components/STT.jsx:64-74 | One more loop iteration extends the final text by the result's text and a space when it is final, the interim text by its text otherwise, and moves the score to it when final |
| Stt.Score | src/components/STT.jsx:70 | `confidence \|\| 0.9` keeps any non-zero score and replaces zero by 0.9 |
| Stt.SttSession.OnResult | src/components/STT.jsx:59-87 | The old transcript stays a prefix and gains exactly the new finals' text; with a final, the word count is the word count of the new transcript; without one, transcript and count are unchanged; interim is replaced wholesale; confidence changes only to a positive last score; flags untouched; a current word count stays current |
| Stt.FinalTextEmpty | src/components/STT.jsx:68-83 | The appended text is empty exactly when the event has no final result, and otherwise ends with the separating space |
| Stt.FinalTextConcat | src/components/STT.jsx:64-69 | The appended text distributes over concatenation of the results, so finals are appended in index order |
| Stt.InterimTextConcat | src/components/STT.jsx:71-73 | The interim text distributes over concatenation of the results, with no separator |
| Stt.SegmentTexts | src/components/STT.jsx:66-73 | A single result contributes its text and a space to the transcript when final, and only its text to the interim otherwise |
| Stt.InterimOfFinals | src/components/STT.jsx:61-85 | An event whose results are all final leaves the interim text empty |
| Stt.WordCountGrows | src/components/STT.jsx:76-82 | On a transcript that is empty or ends with whitespace, appending the finals adds exactly their words to the count (no word merges with the previous one), and the result again ends with whitespace |
| Stt.AppendFinalWords | src/components/STT.jsx:69-79 | Appending one final text and its space adds exactly that text's words |
| Stt.SttSession.constructor | src/components/STT.jsx:9-19 | Not listening, not paused, empty transcript and interim, zero count, confidence and clock; the flags agree and the count is current |
| Stt.SttSession.StartListening | src/components/STT.jsx:195-203 | Acts only when a recognizer exists and the session is not listening: then listening and unpaused; otherwise no flag changes; text untouched; flag agreement kept |
| Stt.SttSession.PauseListening | src/components/STT.jsx:205-211 | Acts only when listening: then paused; listening and text (interim included) untouched |
| Stt.SttSession.ResumeListening | src/components/STT.jsx:213-219 | Acts only when paused: then unpaused, with `listening` neither consulted nor changed |
| Stt.SttSession.StopListening | src/components/STT.jsx:221-228 | From any state, neither listening nor paused; text untouched |
| Stt.SttSession.OnError | src/components/STT.jsx:89-96 | Listening becomes false whatever the error; `paused` and the text are untouched; the notice is shown exactly for "not-allowed" |
| Stt.SttSession.OnEnd | src/components/STT.jsx:98-104 | When not paused, listening becomes false and interim is cleared; when paused nothing changes |
| Stt.SttSession.ClearTranscript | src/components/STT.jsx:230-237 | Transcript and interim empty; count, confidence and clock zero; flags unchanged; the count is current |
| Stt.SttSession.FormatTranscript | src/components/STT.jsx:787-793 | Only the transcript is rewritten, to its formatted form; the word count is not recomputed |
| Stt.FormatThenFinalGlues | src/components/STT.jsx:77-79 | After "Format Text" the transcript no longer ends with whitespace: "a " formats to "a", the next final "b" makes "ab ", and the count finds one word where two were spoken |
| Stt.ErrorWhilePaused | src/components/STT.jsx:89-96 | Start, pause, then an error leaves a session paused but not listening, and resume then leaves it not listening |
| SttText.WordCount | src/components/STT.jsx:79 | The trim/split on `\s+`/filter count equals the reference count of non-whitespace characters that begin the text or follow whitespace |
| SttText.WordCountBlank | src/components/STT.jsx:79 | A text of whitespace only has no words |
| SttText.WordCountJoin | src/components/STT.jsx:79 | Two texts joined by a whitespace character have the sum of their word counts |
| JsSplit.SplitRunsCount | src/components/STT.jsx:79 | Splitting on separator runs and dropping blank pieces leaves as many pieces as the reference count |
| JsSplit.TrimKeepsPieceStarts | src/components/STT.jsx:79 | Trimming before splitting does not change the count |
| JsSplit.NonEmptyIsNonBlank | src/components/STT.jsx:79 | On pieces free of whitespace, the `length > 0` filter and the `trim()` filter agree |
| JsSplit.SplitRuns | src/components/STT.jsx:79 | `split` on a regular expression matching runs of one character class (`/\s+/` here, `/[.!?]+/` at line 778): at least one piece, none containing a separator; its count is SplitRunsCount |
| JsSplit.NonEmpty | src/components/STT.jsx:79 | Defined as the `filter(word => word.length > 0)` of the pieces; related to the trim filter by NonEmptyIsNonBlank |
| JsSplit.NonBlank | src/components/STT.jsx:778 | Defined as the `filter(s => s.trim())` of the pieces; its length is the reference count by SplitRunsCount |
| JsSplit.SplitAt | src/components/STT.jsx:777 | `split(' ')` gives one more piece than the spaces, none of them containing a space |
| JsSplit.JoinSplitAt | src/components/STT.jsx:777 | Joining the pieces of `split(' ')` with a space gives the text back |
| SttText.ViewStats | src/components/STT.jsx:776-779 | The figures the "View Stats" button shows for the transcript: words = spaces + 1; sentences = the reference count of non-blank pieces between runs of `.`, `!`, `?`; characters lie between the code-point count and twice it; reading minutes is the least r with 200·r >= words |
| SttText.CeilDiv | src/components/STT.jsx:779 | `Math.ceil(a / b)`: the least r with r*b >= a |
| SttText.Utf16Length | src/components/STT.jsx:779 | `length` counts one unit per character and two for one outside the Basic Multilingual Plane; it equals the character count exactly when none is |
| SttText.StatsWordsAfterFinal | src/components/STT.jsx:777 | On "hi yo ", a transcript as recognition leaves it, "View Stats" reports 3 words where the live counter reports 2 |
| JsString.Trim | src/components/STT.jsx:79 | `trim()` is empty exactly on a blank text, and otherwise neither starts nor ends with whitespace |
| JsString.NonSpaceTrim | src/components/STT.jsx:791 | Trimming keeps every non-whitespace character, in order |
| JsString.TrimStartSplit | src/components/STT.jsx:791 | `trimStart` removes a blank prefix and keeps the rest unchanged |
| JsString.TrimEndSplit | src/components/STT.jsx:791 | `trimEnd` removes a blank suffix and keeps the rest unchanged |
| SttFormat.FormatText | src/components/STT.jsx:788-791 | The formatted text keeps the non-whitespace characters in order and is tidy: no leading or trailing whitespace, and its only whitespace is single spaces between words or exactly "\n\n" after `.`, `!` or `?` |
| SttFormat.CollapseSpaces | src/components/STT.jsx:789 | Defined as `replace(/\s+/g, ' ')`: every maximal whitespace run becomes one space; its properties are stated through FormatInOnePass |
| SttFormat.BreakSentences | src/components/STT.jsx:790 | Defined as `replace(/([.!?])\s*/g, '$1\n\n')`: each terminator and the whitespace after it become the terminator and "\n\n"; its properties are stated through FormatInOnePass |
| SttFormat.OnePass | src/components/STT.jsx:789-790 | The two rewrites fused into one pass: empty exactly on the empty text, and it starts with the input's first character, or a space for whitespace |
| SttFormat.FormatTextWords | src/components/STT.jsx:788-791 | The formatted text has exactly one word per input character that starts the input or follows whitespace or a terminator, so words are never merged |
| SttFormat.FormatNeverMergesWords | src/components/STT.jsx:788-791 | Formatting never lowers the word count |
| SttFormat.FormatInOnePass | src/components/STT.jsx:789-790 | The two `replace` rewrites agree, up to trimming, with one left-to-right pass |
| SttFormat.NonSpaceOnePass | src/components/STT.jsx:789-790 | The rewrites change nothing but whitespace |
| SttFormat.TidyEnd | src/components/STT.jsx:791 | A tidy text ends with a non-whitespace character |
| SttFormat.FormatTextIdempotent | src/components/STT.jsx:788-791 | Formatting a formatted transcript changes nothing |
| SttFormat.FormatChangesWordCount | src/components/STT.jsx:787-793 | The count left standing can be wrong: "a.b" has one word and formats to "a.\n\nb", which has two |
| SttClock.Decimal | src/components/STT.jsx:277 | `toString()` of a non-negative integer is a non-empty digit string without leading zero, one digit exactly below 10 |
| SttClock.ValueDecimal | src/components/STT.jsx:277 | The decimal digits read back as the number |
| SttClock.PadStart | src/components/STT.jsx:277 | `padStart(width, fill)` keeps the string as a suffix, fills only in front, and reaches the width |
| SttClock.SecondsField | src/components/STT.jsx:276-277 | The seconds field is always two digits with the remainder's value |
| SttClock.ReadFormatTime | src/components/STT.jsx:274-278 | Every clock is minutes, a colon and two digits below 60 that read back as the seconds: m*60+ss = s |
| SttClock.FormatTime | src/components/STT.jsx:274-278 | Defined as `Decimal(s / 60)`, a colon and `Decimal(s % 60)` padded to two digits; what it promises is proved in ReadFormatTime and FormatTimeInjective |
| SttClock.FormatTimeInjective | src/components/STT.jsx:274-278 | Different second counts never show the same clock |
| Tts.FirstNamed | src/components/TTS.jsx:34 | The index of the first voice with the name, with no earlier match, or the catalog length when none matches |
| Tts.FindVoice | src/components/TTS.jsx:34-35 | The voice found is the first catalog entry with the selected name; none is found exactly when nothing is selected or no entry has that name |
| Tts.TtsController.constructor | src/components/TTS.jsx:4-10 | Empty text and catalog, no selection, rate and pitch 1, neither flag, nothing scheduled or spoken |
| Tts.TtsController.EditText | src/components/TTS.jsx:66 | Only the text changes |
| Tts.TtsController.SelectVoice | src/components/TTS.jsx:86 | Only the selection changes |
| Tts.TtsController.SetRate | src/components/TTS.jsx:132 | Only the rate changes |
| Tts.TtsController.SetPitch | src/components/TTS.jsx:150 | Only the pitch changes |
| Tts.TtsController.LoadVoices | src/components/TTS.jsx:13-19 | The catalog is replaced; with a catalog and no selection the default is entry 10, and the access throws exactly when there are fewer than 11 voices; an existing selection is kept |
| Tts.TtsController.HandleSpeak | src/components/TTS.jsx:25-49 | Text that is blank after trimming changes nothing; otherwise "Preparing" is set and exactly one dispatch is scheduled with the untrimmed text, the voice found for the selection and the current rate and pitch; nothing blank is ever scheduled |
| Tts.TtsController.ClickSpeak | src/components/TTS.jsx:159-161 | While preparing or speaking the disabled button does nothing; otherwise it is `handleSpeak` |
| Tts.TtsController.FireTimer | src/components/TTS.jsx:32-48 | The oldest scheduled dispatch is handed to the synthesizer, in order, and no flag changes |
| Tts.TtsController.OnUtteranceStart | src/components/TTS.jsx:39-42 | "Speaking" is set and "Preparing" cleared |
| Tts.TtsController.OnUtteranceEnd | src/components/TTS.jsx:43-45 | "Speaking" is cleared and "Preparing" left as it is |
| Tts.TtsController.HandleStop | src/components/TTS.jsx:50-54 | Both flags are cleared from any state; a dispatch still waiting for its timer is kept |
| Tts.StopBeforeTimer | src/components/TTS.jsx:32-54 | Speak then Stop before the delay runs out: no flag is shown, yet the utterance is still handed over afterwards |
| Tts.OnlyTheButtonGuards | src/components/TTS.jsx:25-31 | `handleSpeak` has no guard of its own: called twice it schedules two dispatches, where two clicks on the button schedule one |

## Left out

- The microphone level meter and waveform (`src/components/STT.jsx:135-192`)
  are device I/O and floating-point display values.
- The session timer (`src/components/STT.jsx:111-125`) runs on the wall
  clock. In the model `sessionTime` is a field that only `clearTranscript`
  resets. In the app the timer effect also zeroes it whenever listening
  stops (`src/components/STT.jsx:120-122`).
- Copy, download and share (`src/components/STT.jsx:239-272`) are clipboard,
  file and share-sheet I/O.
- Rendering, themes, settings, auto-scroll, the confidence display
  thresholds, and `src/App.jsx`, which only switches tabs.
- SttText.ViewStats: the rounded average sentence length is not
  modelled. It is a floating-point division, and it is NaN on a transcript
  with no sentence.
- Stt.Score: only a zero score falls back to 0.9. A NaN or missing
  confidence, which `||` also replaces, is not modelled.
- Confidence, rate and pitch are opaque real numbers. `parseFloat` of the
  slider text is not modelled.
- SttClock.FormatTime is defined on non-negative whole seconds only. Those
  are the only values the panel passes to it.
- Alerts are modelled as returned flags: `notice` for the
  microphone-denied alert, `accepted` for the empty-text alert, and
  `thrown` for the failed default-voice access. After `thrown`, React's
  handling of the uncaught error is not modelled; the catalog has already
  been replaced by then.
- React lifecycle effects are not modelled:
  - re-creating the recognizer when the language or `isPaused` changes;
  - the stale `isPaused` that `onend` closes over;
  - setState batching.

  Each handler is one atomic update of the current state. The recognizer
  callbacks require that a recognizer exists, because they are only
  installed then.
- The synthesizer's queue is not modelled. `cancel` and `speak` ordering
  are not part of the model. The utterance callbacks are inputs, and
  `onstart` requires that some utterance has been handed over. Stop
  cancels only what the synthesizer holds, and the model keeps the
  dispatches still waiting on their timers.
- Tts.TtsController.SelectVoice: the voice picker only offers catalog
  names. The model accepts any name, and the lookup then finds no voice.
- The recognizer's language setting is not modelled. It only configures the
  platform recognizer.
