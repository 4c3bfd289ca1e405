# hnpaper-news narration and navigation core, in Dafny

This project models three parts of the hnpaper-news site and proves
properties of them.

- **The narration generator** (`scripts/generate-audio.ts`):
  - `cleanMarkdown` turns an article's Markdown into plain text.
  - `chunkText` cuts that text into pieces the speech synthesiser accepts.
  - `formatTime` and `jsonToVtt` write the WebVTT caption track.
  - The per-article loop of `processFile` covers the skip test, the three-attempt retry and the time offset that moves each chunk's captions after the audio of the chunks before it.
- **The live narration controller** (`TTSController`), outside Google Cast:
  - the `stopped | playing | paused | error` state machine;
  - the word map from word spans to text offsets;
  - sentence segmentation (the regular-expression path);
  - the sentence cursor of `speakSentence`;
  - word highlighting on speech boundaries;
  - click-to-play from an element.
- **The article navigation bar** (`ArticleNavigation`):
  - section discovery from the article's child elements;
  - previous/next navigation and the keyboard shortcuts;
  - the scroll spy and the state of the previous/next buttons;
  - `section-N` links;
  - the speed button.

Files, one module each:

| file | module | contents |
|---|---|---|
| `text.dfy` | `JsText` | JavaScript string semantics: `\s`, `trim`, `toString`, `padStart`, digit strings |
| `markdown.dfy` | `Markdown` | the sixteen rewrites of `cleanMarkdown` as a rule datatype with a leftmost, global `replace`; the character filter |
| `chunker.dfy` | `Chunker` | the sentence regular expression, the `.{1,L}` hard split, greedy packing |
| `vtt.dfy` | `Vtt` | `formatTime`, `jsonToVtt`, and a reader of the caption format used as their inverse |
| `generation.dfy` | `Generation` | retry, offset accumulation, the outcome of `processFile` |
| `tts.dfy` | `Tts` | the speech controller |
| `navigation.dfy` | `Navigation` | the navigation bar |

Everything outside the program's own logic becomes a parameter:

- **Generator inputs.** Synthesis, the duration probe, the subtitle JSON and the files on disk are given per chunk, as a `ChunkEnv`:
  - the outcome of each attempt;
  - whether the chunk's audio file exists;
  - its duration in whole milliseconds;
  - its bytes;
  - its cues, or none when the JSON file is missing.
- **The page, for the controller.** It is reduced to:
  - whether the article body and the player controls exist;
  - the texts of the word spans outside ignored blocks, in document order.

  An element is the set of word positions it contains.
- **The speech engine.** It is reduced to whether it exists and to the text last handed to `speak`.
- **The page, for the navigation bar.** It is reduced to:
  - whether the bar exists;
  - the list of the article's child elements, each a rule or not;
  - a map from element to absolute top;
  - the scroll position;
  - a bottom-of-page flag.
- **Outputs.** Scrolling, playing a section and toggling speech are returned as commands.

## Model

| member | source | states |
|---|---|---|
| JsText.Trim | scripts/generate-audio.ts:68 | `trim()` returns the slice between the leading and the trailing whitespace runs; the slice starts and ends with a non-space; it is empty exactly when the input is all whitespace |
| JsText.PaddedValue | scripts/generate-audio.ts:30-33 | zero-padding a number's decimal form keeps its value |
| JsText.DigitsValueOfNatToString | src/scripts/client/ArticleNavigation.ts:81 | `toString()` of a non-negative integer reads back as the same number |
| JsText.NatToStringOfDigits | src/scripts/client/ArticleNavigation.ts:289 | rendering the value of a digit string without a leading zero gives the string back |
| JsText.NatToStringLength | scripts/generate-audio.ts:30-33 | a number below 10^w renders in at most w digits, so padding it to w gives exactly w characters |
| Markdown.Match | scripts/generate-audio.ts:50-65 | every rewrite rule that matches consumes at least one character, and its replacement is never longer than the match |
| Markdown.MatchWrapped | scripts/generate-audio.ts:52-64 | the single-delimiter rules (lines 52, 62, 64) match exactly when the first delimiter after the opening one lies two or more characters on; the match ends there, its inner text holds no delimiter, and it is replaced by that inner text |
| Markdown.MatchDoubleWrapped | scripts/generate-audio.ts:61-63 | the double-delimiter rules (lines 61, 63) match exactly when the first delimiter after the opening pair lies three or more characters in and starts a closing pair; the inner text holds no delimiter and replaces the match |
| Markdown.MatchBlankLines | scripts/generate-audio.ts:65 | `\n{3,}` matches exactly when three or more newlines lead, consumes the whole run and writes two |
| Markdown.ReplaceAll | scripts/generate-audio.ts:50-65 | a global replace never lengthens the text |
| Markdown.BlankLinesCollapse | scripts/generate-audio.ts:65 | after the blank-line rewrite no three newlines are adjacent; a leading run is kept below three and cut to two otherwise |
| Markdown.CollapsedHasNoTriple | scripts/generate-audio.ts:50-65 | a rule chain that ends with the blank-line collapse yields text with no three adjacent newlines |
| Markdown.Sanitize | scripts/generate-audio.ts:66 | the filter keeps the length, yields only letter/number/punctuation/separator/newline characters, keeps every such character, and never creates a newline |
| Markdown.SanitizeKeepsNoTriple | scripts/generate-audio.ts:66 | the filter cannot create a run of three newlines |
| Markdown.TrimKeepsNoTriple | scripts/generate-audio.ts:68 | trimming cannot create a run of three newlines |
| Markdown.CleanMarkdown | scripts/generate-audio.ts:47-69 | the output is no longer than the input, has no leading or trailing whitespace, holds only safe characters and never three newlines in a row |
| Chunker.Sentences | scripts/generate-audio.ts:77-78 | every match of the sentence expression is non-empty and starts with a non-mark |
| Chunker.SentencesKeepContent | scripts/generate-audio.ts:77-78 | the matches, joined, keep every character that is neither whitespace nor `.!?`, in order (stray marks such as the `.` of `3.5` may be dropped) |
| Chunker.HardSplit | scripts/generate-audio.ts:89-91 | each `.{1,L}` piece has 1 to L characters and no line terminator |
| Chunker.HardSplitKeepsContent | scripts/generate-audio.ts:89-91 | the pieces, joined, keep the sentence's content |
| Chunker.HardSplitNonEmpty | scripts/generate-audio.ts:89-91 | a non-blank sentence yields at least one piece, so the `\|\| [sentence]` fallback is never taken |
| Chunker.PiecesFit | scripts/generate-audio.ts:88-92 | what an oversize sentence pushes fits the limit and keeps its content |
| Chunker.Flush | scripts/generate-audio.ts:101-103 | pushing the trimmed buffer appends exactly the buffer's content |
| Chunker.ContentTrim | scripts/generate-audio.ts:85 | trimming removes no content |
| Chunker.FlushBuffer | scripts/generate-audio.ts:84-86 | the flush keeps every chunk within the limit and appends the buffer's content after the earlier chunks |
| Chunker.PushPieces | scripts/generate-audio.ts:88-92 | pushing the pieces keeps every chunk within the limit and appends the sentence's content |
| Chunker.AddSentence | scripts/generate-audio.ts:81-98 | one loop turn keeps the buffer and the chunks within the limit; chunks then buffer hold the earlier content followed by the sentence's, so the buffer is flushed before a sentence's pieces |
| Chunker.ChunkText | scripts/generate-audio.ts:71-106 | a text within the limit is returned as the only chunk; every chunk has at most `maxLength` characters; the chunks, joined, keep the text's content in order |
| Vtt.Field | scripts/generate-audio.ts:30-33 | a padded field has exactly the given width, is all digits and reads back as the number |
| Vtt.FormatTime | scripts/generate-audio.ts:28-35 | within the range of `Date` the result has 12 characters; past it every field reads `NaN`; it never holds a line break |
| Vtt.TimeFieldsSum | scripts/generate-audio.ts:29-33 | the UTC hour, minute, second and millisecond fields recombine to `ms` modulo one day, the hours wrapping at 24 |
| Vtt.FormatTimeParses | scripts/generate-audio.ts:28-35 | the `HH:MM:SS.mmm` string built from the four fields reads back as `ms` modulo one day |
| Vtt.TimeRoundTrip | scripts/generate-audio.ts:28-35 | reading a formatted time gives back the time of day it denotes |
| Vtt.TimingParses | scripts/generate-audio.ts:40-42 | a cue's timing line reads back as its start and end times modulo one day |
| Vtt.JsonToVtt | scripts/generate-audio.ts:37-45 | the track starts with the `WEBVTT` header and is only the header for no cues |
| Vtt.HeaderLines | scripts/generate-audio.ts:38 | the header is the line `WEBVTT` followed by one blank line |
| Vtt.BlockLines | scripts/generate-audio.ts:42 | one cue's block is exactly four lines: its number counted from one, its timing, its text, a blank line |
| Vtt.BlocksRoundTrip | scripts/generate-audio.ts:39-43 | reading the blocks written from a position gives back the cues in order, numbered from that position plus one |
| Vtt.RoundTrip | scripts/generate-audio.ts:37-45 | reading a written track gives back exactly one block per cue, in input order, numbered from 1, with times modulo one day |
| Generation.SynthesizeWithRetry | scripts/generate-audio.ts:167-183 | makes 1 to 3 calls; succeeds exactly when one of the first three attempts succeeds; stops at the first success; rethrows only after the third failure |
| Generation.Shift | scripts/generate-audio.ts:203-207 | each cue keeps its text and moves both its times later by the offset |
| Generation.RunChunks | scripts/generate-audio.ts:164-221 | the loop succeeds exactly when every chunk succeeds within three tries; then the audio is the existing chunk files in order and the track is every chunk's shifted cues; it counts the calls made up to the first failure |
| Generation.FailureIsFinal | scripts/generate-audio.ts:181 | once a chunk has failed, later chunks change neither the verdict nor the call count |
| Generation.TrackPrefix | scripts/generate-audio.ts:209 | cues are only appended: an earlier track is a prefix of a later one |
| Generation.OffsetMonotone | scripts/generate-audio.ts:217 | the time offset never decreases |
| Generation.ChunkCueAfter | scripts/generate-audio.ts:199-209 | the cues of a chunk with audio and subtitles follow the earlier cues, shifted by the offset in force |
| Generation.ChunkCueInTrack | scripts/generate-audio.ts:185-217 | cue k of chunk i sits in the final track right after the earlier chunks' cues, shifted by the summed durations of the earlier chunks whose audio existed |
| Generation.MissingFiles | scripts/generate-audio.ts:185-217 | missing subtitles add no cue but the duration still advances the offset; a missing audio file adds and advances nothing |
| Generation.OffsetExample | scripts/generate-audio.ts:185-217 | four chunks (5 s with a cue, 3 s without subtitles, no audio, 4 s with a cue) give the last cue an 8 s shift and seven synthesis calls |
| Generation.TextToRead | scripts/generate-audio.ts:131-133 | the text read is the title, the separator `". \n\n  "`, then the cleaned body |
| Generation.ProcessFile | scripts/generate-audio.ts:108-244 | unforced with both files present nothing happens and no synthesis call is made; otherwise the chunks fit and keep the text's content; a failed run leaves neither file; a completed run leaves the audio and the caption track of its path |
| Tts.Init | src/scripts/client/TTSController.ts:115-145 | the constructed controller is stopped, satisfies the invariant and records whether its controls were found; with its controls and the article body present the content is prepared from the page and has sentences; otherwise `init()` returns early (or there is no article) and nothing is prepared |
| Tts.ContiguousFind | src/scripts/client/TTSController.ts:597-599 | over intervals laid end to end, a point inside their span is found, in the unique interval holding it |
| Tts.WordMapEntry | src/scripts/client/TTSController.ts:485-505 | word i starts at the sum of the lengths plus one of the earlier words and ends its own length later |
| Tts.WordLocated | src/scripts/client/TTSController.ts:495-504 | the full text holds word i exactly at its range after the title, followed by a space |
| Tts.WordRangesIncreasing | src/scripts/client/TTSController.ts:496-501 | consecutive word ranges are ordered and one space apart, so they are disjoint and increasing |
| Tts.WordIntervalsContiguous | src/scripts/client/TTSController.ts:597-599 | the `[start - 1, end)` intervals the highlighter tests lie end to end |
| Tts.Segments | src/scripts/client/TTSController.ts:517 | the regular-expression matches are non-empty and, joined, give the text back |
| Tts.Entries | src/scripts/client/TTSController.ts:522-527 | one sentence entry per segment, holding that segment |
| Tts.EntriesStart | src/scripts/client/TTSController.ts:522-527 | each sentence starts at the summed lengths of the earlier segments |
| Tts.SentenceSlice | src/scripts/client/TTSController.ts:517-527 | each sentence is the slice of the full text at its start |
| Tts.SentencesCover | src/scripts/client/TTSController.ts:517-527 | the first sentence starts at 0 and the last ends at the end of the text |
| Tts.SentencesContiguous | src/scripts/client/TTSController.ts:522-527 | each sentence starts where the previous one ends |
| Tts.SentencesTile | src/scripts/client/TTSController.ts:507-528 | the sentences of a non-empty text tile it exactly |
| Tts.Prepare | src/scripts/client/TTSController.ts:415-425 | without an article body nothing changes; otherwise the full text and word map are built from the words and the text is segmented; the state and cursor are left alone |
| Tts.PrepareKeepsInv | src/scripts/client/TTSController.ts:415-425 | preparing keeps the invariant and, with an article body, leaves non-empty sentences built from the page |
| Tts.Stop | src/scripts/client/TTSController.ts:365-388 | stop always ends stopped; with a speech engine the cursor is reset to 0/0, the highlight cleared and the utterance cancelled |
| Tts.Clamp | src/scripts/client/TTSController.ts:538-545 | a cursor outside the sentence moves to its start; one inside stays |
| Tts.FirstToSpeak | src/scripts/client/TTSController.ts:548-552 | the first sentence from the cursor whose remainder is not blank; all skipped ones are blank |
| Tts.FirstToSpeakNext | src/scripts/client/TTSController.ts:548-552 | moving to the next sentence with char index 0 does not change which later sentence is spoken |
| Tts.SpeakSentence | src/scripts/client/TTSController.ts:530-588 | speaking keeps the content and either keeps the state or stops |
| Tts.SpeakSentenceSpeaks | src/scripts/client/TTSController.ts:530-555 | past the last sentence it stops; otherwise it skips blank remainders and hands the engine the rest of the first non-blank sentence, from the clamped cursor |
| Tts.Pause | src/scripts/client/TTSController.ts:328-338 | only a playing controller changes: it becomes paused and the utterance is cancelled |
| Tts.Resume | src/scripts/client/TTSController.ts:350-362 | only a paused controller changes: it speaks again or stops when nothing is left |
| Tts.Play | src/scripts/client/TTSController.ts:293-315 | without speech synthesis the state becomes error; with no article body and nothing prepared it returns without any change; otherwise it ends playing or stopped, on prepared content |
| Tts.Toggle | src/scripts/client/TTSController.ts:266-274 | playing is handled exactly as a pause, paused exactly as a resume, and every other state (stopped or error) exactly as a play request |
| Tts.ToggleTwice | src/scripts/client/TTSController.ts:266-274 | from playing or paused, two toggles return the same controller |
| Tts.PlayFromStopped | src/scripts/client/TTSController.ts:293-315 | when playing from stopped starts speaking, content is prepared and the engine is handed a non-blank text |
| Tts.FirstWordIn | src/scripts/client/TTSController.ts:393-395 | the element's first word in document order, or none when it holds no word |
| Tts.JumpToWord | src/scripts/client/TTSController.ts:393-412 | nothing changes when the element holds no word or no sentence holds its first word's offset; otherwise the state becomes playing or stopped |
| Tts.JumpLands | src/scripts/client/TTSController.ts:398-411 | the jump starts at the found sentence, at the word's offset |
| Tts.SentenceOf | src/scripts/client/TTSController.ts:400-402 | in tiled sentences, every text offset lies in a sentence that the search finds |
| Tts.StartAtSpeaks | src/scripts/client/TTSController.ts:404-411 | starting at an offset inside a sentence, on a non-space character, plays that sentence from that offset |
| Tts.ElementLands | src/scripts/client/TTSController.ts:393-411 | on tiled sentences the jump lands on the element's first word |
| Tts.JumpLandsIn | src/scripts/client/TTSController.ts:398-411 | the jump plays the unique sentence holding the word's offset, from that offset |
| Tts.PlayFromElementLands | src/scripts/client/TTSController.ts:390-413 | click-to-play plays the sentence holding `title.length + word.start` of the element's first word, from that offset, and no other sentence holds it |
| Tts.PlayFromElement | src/scripts/client/TTSController.ts:390-413 | words and title are kept; the state is kept or becomes playing or stopped |
| Tts.HighlightWord | src/scripts/client/TTSController.ts:590-606 | an index inside the title clears the mark; a newly marked word has `start - 1 <= index - title.length < end`; nothing else changes |
| Tts.HighlightUnique | src/scripts/client/TTSController.ts:596-605 | past the title and before the end of the last word exactly one word satisfies the test and it is marked; past the last word nothing changes |
| Tts.OnBoundary | src/scripts/client/TTSController.ts:565-570 | a boundary event changes at most the mark |
| Tts.OnEnd | src/scripts/client/TTSController.ts:572-578 | the end of an utterance acts only while playing |
| Tts.OnError | src/scripts/client/TTSController.ts:580-585 | an error stops playback exactly when playing and not an interruption |
| Tts.UpdateSpeed | src/scripts/client/TTSController.ts:626-629 | a speed change acts only while playing |
| Tts.Step | src/scripts/client/TTSController.ts:115-143 | without its controls `init()` returned before binding any listener (line 116), so no event changes anything; otherwise no event changes the words, the title or whether speech exists |
| Tts.PauseKeepsInv | src/scripts/client/TTSController.ts:328-338 | pausing keeps the controller invariant |
| Tts.ResumeKeepsInv | src/scripts/client/TTSController.ts:350-362 | resuming keeps the controller invariant |
| Tts.StopKeepsInv | src/scripts/client/TTSController.ts:376-387 | stopping keeps the controller invariant |
| Tts.PlayKeepsInv | src/scripts/client/TTSController.ts:293-315 | playing keeps the controller invariant |
| Tts.ToggleKeepsInv | src/scripts/client/TTSController.ts:266-274 | toggling keeps the controller invariant |
| Tts.SpeakKeepsInv | src/scripts/client/TTSController.ts:530-587 | speaking from a playing controller establishes the cursor invariant: inside a sentence, non-blank remainder, which is what the engine holds |
| Tts.BoundaryKeepsInv | src/scripts/client/TTSController.ts:565-570 | boundary events keep the invariant |
| Tts.EndKeepsInv | src/scripts/client/TTSController.ts:572-578 | the end of an utterance keeps the invariant |
| Tts.SpeedKeepsInv | src/scripts/client/TTSController.ts:626-629 | a speed change keeps the invariant |
| Tts.ElementKeepsInv | src/scripts/client/TTSController.ts:390-413 | click-to-play keeps the invariant |
| Tts.StepKeepsInv | src/scripts/client/TTSController.ts:125-142 | every event keeps the controller invariant |
| Tts.StepKeepsConsistent | src/scripts/client/TTSController.ts:298-300 | content, once prepared, is always the one built from the page |
| Navigation.NextBlock | src/scripts/client/ArticleNavigation.ts:67-70 | the sibling walk stops at the first element that is not a rule, or finds none when only rules follow |
| Navigation.RuleSections | src/scripts/client/ArticleNavigation.ts:66-77 | each rule adds a later element that is not a rule |
| Navigation.RuleSectionsMembers | src/scripts/client/ArticleNavigation.ts:66-77 | the rules add exactly the elements that directly follow a rule |
| Navigation.ScanSectionsAsWritten | src/scripts/client/ArticleNavigation.ts:59-77 | as written: sections exist exactly when the article has children; the first is the first child; the rest are elements that are not rules |
| Navigation.DoubleRuleDuplicates | src/scripts/client/ArticleNavigation.ts:66-77 | as written, `p, hr, hr, p` yields three sections, the last two the same paragraph |
| Navigation.ScanSections | src/scripts/client/ArticleNavigation.ts:59-77 | corrected: sections exist exactly when the article has children |
| Navigation.ScanSectionsSpec | src/scripts/client/ArticleNavigation.ts:59-77 | corrected: the first child, then exactly the elements that follow a rule, strictly increasing, so no repeats and no rule |
| Navigation.SameSections | src/scripts/client/ArticleNavigation.ts:66-77 | the as-written and corrected lists hold the same elements after the first child |
| Navigation.SectionId | src/scripts/client/ArticleNavigation.ts:81 | a section id is `section-` followed by digits |
| Navigation.HashTarget | src/scripts/client/ArticleNavigation.ts:284-291 | a hash names a section exactly when it reads `#section-` and one or more digits, and the index it gives is never below -1 |
| Navigation.HashRoundTrip | src/scripts/client/ArticleNavigation.ts:284-291 | the link `#section-{i+1}` given to section i leads back to index i |
| Navigation.HashIsLink | src/scripts/client/ArticleNavigation.ts:286-289 | a hash whose number has no leading zero is the link of the section it names |
| Navigation.ScrollToSection | src/scripts/client/ArticleNavigation.ts:269-282 | an index in range scrolls to 20 pixels above its element; any other index does nothing |
| Navigation.InitialScroll | src/scripts/client/ArticleNavigation.ts:284-293 | a hash naming a section scrolls as `scrollToSection` does for the index it names; any other hash, or none, gives no command |
| Navigation.InitialScrollToLink | src/scripts/client/ArticleNavigation.ts:81-82 | opening a page at the link `#section-{i+1}` of section i scrolls to 20 pixels above that section |
| Navigation.Navigate | src/scripts/client/ArticleNavigation.ts:211-226 | only a target in range acts: it scrolls there and, while playing, asks to play from it |
| Navigation.PlayPressed | src/scripts/client/ArticleNavigation.ts:143-157 | while playing the button toggles speech; otherwise it plays the current section when there is one |
| Navigation.KeyDown | src/scripts/client/ArticleNavigation.ts:195-208 | keys with a modifier or in a form field do nothing; the arrows navigate by one; space toggles speech |
| Navigation.SpyIndex | src/scripts/client/ArticleNavigation.ts:233-252 | the last section of the leading run with `scrollY >= top - 200`, 0 when that run is empty, and the last section (-1 with none) at the bottom of the page |
| Navigation.ComputeSpyIndex | src/scripts/client/ArticleNavigation.ts:233-252 | the loop with its `break` and the bottom override computes that index |
| Navigation.OnScroll | src/scripts/client/ArticleNavigation.ts:254-262 | an unchanged index leaves everything as it was; a new one becomes current, the label shows it counted from one, previous is disabled exactly at index 0 or below and next exactly at the last index or beyond |
| Navigation.OnScrollKeepsActiveOk | src/scripts/client/ArticleNavigation.ts:247-262 | the current index stays a section, or 0 / -1 with no sections, and the label and buttons keep agreeing with it |
| Navigation.OnScrollIdempotent | src/scripts/client/ArticleNavigation.ts:254-262 | handling the same scroll twice changes nothing the second time |
| Navigation.NavigateLands | src/scripts/client/ArticleNavigation.ts:273-275 | with sections more than 180 pixels apart, the scroll a navigation asks for makes the scroll spy pick the target |
| Navigation.Handle | src/scripts/client/ArticleNavigation.ts:136-266 | the routing of the listeners: with no bar no input has an effect; scrolling runs the scroll handler; the previous/next buttons and the `tts:cmd:nav-prev`/`tts:cmd:nav-next` window events navigate by one; back-to-top scrolls to 0; the play button goes through `PlayPressed` and key presses through `KeyDown` |
| Navigation.HandleKeepsActiveOk | src/scripts/client/ArticleNavigation.ts:211-226 | every input keeps the current index valid, and only scrolling changes it: navigation never moves it itself |
| Navigation.Init | src/scripts/client/ArticleNavigation.ts:43-50 | with no navigation bar `init()` returns at once: no sections, index 0, markup untouched, nothing listening and no scroll. Otherwise the bar holds the sections the scan finds as written, the scroll handler run at once by `setupScrollSpy` (line 266) makes the section the scroll spy picks current, which is a valid index, and the commands are the scroll the location hash asks for |
| Navigation.NextSpeed | src/scripts/client/ArticleNavigation.ts:174-178 | the next option, or the first after the last |
| Navigation.SpeedAdvances | src/scripts/client/ArticleNavigation.ts:174-178 | before the end of the list k presses advance k options |
| Navigation.SpeedCompose | src/scripts/client/ArticleNavigation.ts:174-178 | a + b presses are a presses then b presses |
| Navigation.SpeedFullCircle | src/scripts/client/ArticleNavigation.ts:174-178 | as many presses as there are options come back to the selected one |

## Left out

- Character units: strings are sequences of characters. JavaScript counts UTF-16 code units, so text outside the Basic Multilingual Plane would have different offsets and lengths.
- Unicode categories: the filter's `\p{L}`, `\p{N}`, `\p{P}` and `\p{Z}` are tabulated only for Latin-1, Latin Extended-A/B, General Punctuation and the space separators. Every other character counts as unsafe, so the filter turns it into a space.
- Markdown.CleanMarkdown: states the promised shape of the output (trimmed, safe characters, no triple newline), not a reference for each rewrite. Each rule is modelled by its own matcher with a weaker contract (a match consumes characters and its replacement is no longer).
- Floating point:
  - The probed duration in seconds is given directly as whole milliseconds.
  - `utterance.rate`, the reading-time estimate of `updateSpeed` and the speed label text are not modelled.
- I/O and foreign code are abstract inputs or left out: `ffprobe`, EdgeTTS, the file system, `glob`, front-matter parsing and `JSON.parse`. A malformed JSON file (a thrown parse error) is not modelled.
- Timing: the generator's concurrency pool, the jittered retry back-off and the 200 ms pacing are not modelled. `setTimeout` in `handleInitialHash` is treated as an immediate call.
- Generation.ProcessFile: the temporary `.mp3`/`.json` files are not tracked, only the final `.mp3` and `.vtt`. On the single-chunk path the JSON file is taken to be found under one of its two names or not at all.
- Chunker.ChunkText: requires `maxLength >= 1`, because `.{1,0}` is a syntax error in JavaScript. The default 2000 is the constant `Generation.ChunkLength`.
- Chunker.ChunkText: promises that the content (the characters that are neither whitespace nor `.!?`) is kept in order, not the exact text. Sentence matching drops stray marks, trimming drops whitespace and the hard split drops line terminators.
- `Intl.Segmenter`: only the regular-expression path of `segmentSentences` is modelled.
- Browser APIs: the Web Speech voices and language, Google Cast, the Media Session API, wake lock and the silent-audio element are not modelled. Neither are `wrapWords`' DOM rewriting and the button icons.
- Tts.Play: a play request while already playing makes the program speak again without cancelling, so the engine queues a second utterance behind the first. The model keeps only the text last handed to the engine.
- Stale speech events: events of an utterance cancelled before it fired are not modelled; `onend` and `onboundary` always concern the current utterance.
- Tts.PlayFromElementLands: assumes prepared, consistent content, and that the element's first word is non-empty and starts with a non-space character. Word spans never contain whitespace.
- Tts.HighlightWord: the highlighted element is a word position; `scrollIntoView` is not modelled.
- Navigation speed label: the `tts:speed-changed` listener only rewrites the speed button's text, which the model does not hold.
- Navigation play state: whether speech is playing is a parameter (`playing`), which the page derives from the `tts:state-changed` event.
- Navigation.ScanSections: the article's rules are taken to be its direct children. `querySelectorAll("hr")` also finds nested rules, and those are not modelled.
- `createAnchor`: the anchor buttons and the clipboard copy are not modelled.
- `parseInt`: numbers above 2^53, where `parseInt` loses precision, are read exactly.
- Navigation.NavigateLands: holds only when sections are more than 180 pixels apart and the page is not at its bottom.
- Other source files: `player.ts`, `google-cast.ts`, `podcast.xml.ts`, `migrate-urls.js` and the configuration files are not part of this model.

## Findings

| source | as written | input that shows it | evidently intended | confidence | as-written member | corrected member |
|---|---|---|---|---|---|---|
| src/scripts/client/ArticleNavigation.ts:66-77 | every `hr` adds the first following element that is not an `hr`, so every rule of a run adds the same element | article children `p, hr, hr, p` give sections `[p, p2, p2]`; the second paragraph gets the id `section-2`, then `section-3` overwrites it (line 82), so the link `#section-2` has no target and the page counts three sections | the `while` loop at lines 67-70 skips rules to find the element after a run, so a run of rules should open one section | not executed | Navigation.DoubleRuleDuplicates | Navigation.ScanSectionsSpec |

`Navigation.ScanSections` is the corrected discovery, and `Navigation.ScanSectionsSpec` proves its properties. `Navigation.SameSections` shows that the two lists hold the same elements after the first child; the as-written list only repeats some of them. `Navigation.Init` follows the program and uses the as-written discovery.
