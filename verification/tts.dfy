/** The live narration controller of the article page (`TTSController`)
    outside Google Cast: the `stopped | playing | paused | error` state
    machine, the map from word spans to character offsets, the sentence
    segmentation (the regular-expression path), the sentence cursor of
    `speakSentence`, and the word lookups behind highlighting and
    click-to-play.

    The page is reduced to what the logic reads: the texts of the word
    spans outside ignored blocks, in document order (a word is named by
    its position in that list), and an element is the set of word
    positions it contains.  The speech engine is reduced to whether it
    exists and to the text last handed to it. */
module Tts {
  import opened JsText

  datatype TtsState = Stopped | Playing | Paused | Error

  /** A word's offsets in the text that follows the title. */
  datatype WordRange = WordRange(start: nat, end: nat)

  datatype Sentence = Sentence(text: string, start: nat)

  datatype Tts = Tts(
    state: TtsState,
    speech: bool,               // the page has `window.speechSynthesis`
    article: bool,              // the page has the article body (`articleContent`)
    controls: bool,             // `init()` found its controls and bound the listeners
    title: string,              // the `data-title` attribute followed by ". "
    words: seq<string>,         // the word spans outside ignored blocks
    wordMap: seq<WordRange>,
    fullText: string,
    sentences: seq<Sentence>,
    sentenceIndex: nat,
    charIndex: nat,
    highlighted: Option<nat>,   // the word marked active
    utterance: Option<string>)  // text handed to `speak` and not cancelled

  /** The controller as the constructor leaves it: `init()` returns early
      when the play/pause, stop or speed control is missing (`controls`
      false); otherwise it ends by preparing the content. */
  function Init(dataTitle: string, words: seq<string>, speech: bool, article: bool, controls: bool): (c: Tts)
    ensures Inv(c) && Consistent(c) && c.state == Stopped
    ensures c.controls == controls
    ensures controls && article ==> Prepared(c) && c.sentences != []
    ensures !(controls && article) ==> c.sentences == [] && c.wordMap == []
  {
    var c0 := Tts(Stopped, speech, article, controls, dataTitle + ". ", words, [], [], [], 0, 0, None, None);
    if controls then PrepareKeepsInv(c0); Prepare(c0) else c0
  }

  // ---------------------------------------------------------------------
  // First interval containing a point (`find` / `findIndex`)

  /** The first interval at or after `k` with `lo <= x < hi`. */
  function FindContaining(iv: seq<(int, int)>, x: int, k: nat): (r: Option<nat>)
    ensures r.Some? ==> k <= r.value < |iv| && iv[r.value].0 <= x < iv[r.value].1
    ensures r.Some? ==> forall j | k <= j < r.value :: !(iv[j].0 <= x < iv[j].1)
    ensures r.None? ==> forall j | k <= j < |iv| :: !(iv[j].0 <= x < iv[j].1)
    decreases |iv| - k
  {
    if k >= |iv| then None
    else if iv[k].0 <= x < iv[k].1 then Some(k)
    else FindContaining(iv, x, k + 1)
  }

  /** Intervals laid end to end: each starts where the previous ends. */
  predicate Contiguous(iv: seq<(int, int)>) {
    && (forall i | 0 <= i < |iv| :: iv[i].0 <= iv[i].1)
    && (forall i, j | 0 <= i && j == i + 1 < |iv| :: iv[j].0 == iv[i].1)
  }

  lemma {:induction false} ContiguousOrdered(iv: seq<(int, int)>, i: nat, j: nat)
    requires Contiguous(iv) && i < j < |iv|
    ensures iv[i].1 <= iv[j].0
    decreases j - i
  {
    if i + 1 < j {
      ContiguousOrdered(iv, i, j - 1);
    }
  }

  lemma {:induction false} PassedAll(iv: seq<(int, int)>, x: int, j: nat)
    requires Contiguous(iv) && j < |iv| && iv[0].0 <= x
    requires forall m | 0 <= m <= j :: !(iv[m].0 <= x < iv[m].1)
    ensures iv[j].1 <= x
  {
    if j > 0 {
      PassedAll(iv, x, j - 1);
    }
  }

  /** In intervals laid end to end, a point inside their span lies in
      exactly one of them, and the search finds that one. */
  lemma ContiguousFind(iv: seq<(int, int)>, x: int)
    requires Contiguous(iv) && |iv| > 0 && iv[0].0 <= x < iv[|iv| - 1].1
    ensures FindContaining(iv, x, 0).Some?
    ensures forall j | 0 <= j < |iv| && iv[j].0 <= x < iv[j].1 :: j == FindContaining(iv, x, 0).value
  {
    var r := FindContaining(iv, x, 0);
    if r.None? {
      PassedAll(iv, x, |iv| - 1);
    }
    forall j | 0 <= j < |iv| && iv[j].0 <= x < iv[j].1 ensures j == r.value {
      if j > r.value {
        ContiguousOrdered(iv, r.value, j);
      }
    }
  }

  // ---------------------------------------------------------------------
  // Word map (`buildWordMap`)

  /** The running text from word `k` on: each word followed by one space. */
  function SpacedFrom(ws: seq<string>, k: nat): string
    decreases |ws| - k
  {
    if k >= |ws| then [] else ws[k] + (" " + SpacedFrom(ws, k + 1))
  }

  function Spaced(ws: seq<string>): string {
    SpacedFrom(ws, 0)
  }

  /** Sum of `length + 1` over the words `k` to `j - 1`. */
  function LengthSum(ws: seq<string>, k: nat, j: nat): nat
    requires k <= j <= |ws|
    decreases j - k
  {
    if k == j then 0 else |ws[k]| + 1 + LengthSum(ws, k + 1, j)
  }

  /** The loop of `buildWordMap` from word `k`, the running text being
      `pos` characters long so far. */
  function WordMapFrom(ws: seq<string>, k: nat, pos: nat): (r: seq<WordRange>)
    ensures |r| == if k <= |ws| then |ws| - k else 0
    decreases |ws| - k
  {
    if k >= |ws| then [] else [WordRange(pos, pos + |ws[k]|)] + WordMapFrom(ws, k + 1, pos + |ws[k]| + 1)
  }

  function BuildWordMap(ws: seq<string>): (r: seq<WordRange>)
    ensures |r| == |ws|
  {
    WordMapFrom(ws, 0, 0)
  }

  lemma {:induction false} WordMapFromEntry(ws: seq<string>, k: nat, pos: nat, i: nat)
    requires k <= i < |ws|
    ensures WordMapFrom(ws, k, pos)[i - k] == WordRange(pos + LengthSum(ws, k, i), pos + LengthSum(ws, k, i) + |ws[i]|)
    decreases i - k
  {
    if k < i {
      WordMapFromEntry(ws, k + 1, pos + |ws[k]| + 1, i);
    }
  }

  /** Word `i` starts at the sum of `length + 1` over the words before it
      and ends after its own length. */
  lemma WordMapEntry(ws: seq<string>, i: nat)
    requires i < |ws|
    ensures BuildWordMap(ws)[i] == WordRange(LengthSum(ws, 0, i), LengthSum(ws, 0, i) + |ws[i]|)
  {
    WordMapFromEntry(ws, 0, 0, i);
  }

  lemma {:induction false} LengthSumSplit(ws: seq<string>, k: nat, m: nat, j: nat)
    requires k <= m <= j <= |ws|
    ensures LengthSum(ws, k, j) == LengthSum(ws, k, m) + LengthSum(ws, m, j)
    decreases m - k
  {
    if k < m {
      LengthSumSplit(ws, k + 1, m, j);
    }
  }

  /** The running text from word `k` continues, after the words `k` to
      `j - 1`, with the running text from word `j`. */
  lemma {:induction false} SpacedSuffix(ws: seq<string>, k: nat, j: nat)
    requires k <= j <= |ws|
    ensures LengthSum(ws, k, j) <= |SpacedFrom(ws, k)|
    ensures SpacedFrom(ws, k)[LengthSum(ws, k, j)..] == SpacedFrom(ws, j)
    decreases j - k
  {
    if k < j {
      SpacedSuffix(ws, k + 1, j);
      var rest := SpacedFrom(ws, k + 1);
      assert SpacedFrom(ws, k) == (ws[k] + " ") + rest;
      assert SpacedFrom(ws, k)[|ws[k]| + 1..] == rest;
      DropTwice(SpacedFrom(ws, k), |ws[k]| + 1, LengthSum(ws, k + 1, j));
    }
  }

  lemma DropTwice(s: string, a: nat, b: nat)
    requires a + b <= |s|
    ensures s[a + b..] == s[a..][b..]
  {
  }

  /** The recorded range of word `i` holds exactly that word in the
      narrated text, and a space follows it. */
  lemma WordLocated(title: string, ws: seq<string>, i: nat)
    requires i < |ws|
    ensures var t := title + Spaced(ws);
            var w := BuildWordMap(ws)[i];
            w.start <= w.end < |t| - |title|
            && t[|title| + w.start..|title| + w.end] == ws[i] && t[|title| + w.end] == ' '
  {
    WordMapEntry(ws, i);
    SpacedSuffix(ws, 0, i);
    var t := title + Spaced(ws);
    var n := |title| + LengthSum(ws, 0, i);
    var tail := SpacedFrom(ws, i);
    assert t[n..] == tail;
    assert tail == ws[i] + (" " + SpacedFrom(ws, i + 1));
    assert tail[..|ws[i]|] == ws[i];
    assert t[n..n + |ws[i]|] == tail[..|ws[i]|];
    assert t[n + |ws[i]|] == tail[|ws[i]|];
  }

  /** Ranges are increasing and separated by exactly one character. */
  lemma WordRangesIncreasing(ws: seq<string>, i: nat)
    requires i + 1 < |ws|
    ensures var m := BuildWordMap(ws);
            m[i].start <= m[i].end && m[i].end + 1 == m[i + 1].start
  {
    WordMapEntry(ws, i);
    WordMapEntry(ws, i + 1);
    LengthSumSplit(ws, 0, i, i + 1);
  }

  /** The intervals `highlightWord` tests: `[start - 1, end)`. */
  function WordIntervals(m: seq<WordRange>): (iv: seq<(int, int)>)
    ensures |iv| == |m|
    ensures forall i | 0 <= i < |m| :: iv[i] == (m[i].start as int - 1, m[i].end as int)
  {
    seq(|m|, i requires 0 <= i < |m| => (m[i].start as int - 1, m[i].end as int))
  }

  lemma WordIntervalsContiguous(ws: seq<string>)
    ensures Contiguous(WordIntervals(BuildWordMap(ws)))
  {
    var iv := WordIntervals(BuildWordMap(ws));
    forall i, j | 0 <= i && j == i + 1 < |iv| ensures iv[j].0 == iv[i].1 {
      WordRangesIncreasing(ws, i);
    }
    forall i | 0 <= i < |iv| ensures iv[i].0 <= iv[i].1 {
      WordMapEntry(ws, i);
    }
  }

  // ---------------------------------------------------------------------
  // Sentences (`segmentSentences`, regular-expression path)

  /** A `[.!?]+` run can start at `k` and, taken whole, is followed by
      whitespace or the end of the text. */
  predicate EndsSentenceAt(t: string, k: nat) {
    k < |t| && IsMark(t[k])
    && var e := RunEnd(t, k, IsMark); e == |t| || IsSpace(t[e])
  }

  /** The smallest `k >= from` where the lazy `[\s\S]*?` can stop. */
  function SentenceMarkFrom(t: string, from: nat): (r: Option<nat>)
    ensures r.Some? ==> from <= r.value < |t| && EndsSentenceAt(t, r.value)
    ensures r.Some? ==> forall j | from <= j < r.value :: !EndsSentenceAt(t, j)
    ensures r.None? ==> forall j | from <= j < |t| :: !EndsSentenceAt(t, j)
    decreases |t| - from
  {
    if from >= |t| then None
    else if EndsSentenceAt(t, from) then Some(from)
    else SentenceMarkFrom(t, from + 1)
  }

  /** End of the match of `[\s\S]*?[.!?]+(?:\s+|$)|[\s\S]+$` at `p`: up to
      and past the first sentence-ending run and the whitespace after it,
      otherwise everything that is left. */
  function SegmentEnd(t: string, p: nat): (e: nat)
    requires p < |t|
    ensures p < e <= |t|
  {
    match SentenceMarkFrom(t, p)
    case Some(k) =>
      var m := RunEnd(t, k, IsMark);
      if m == |t| then m else RunEnd(t, m, IsSpace)
    case None => |t|
  }

  /** The global matches from `p` on; every position starts a match, so
      they cover the text. */
  function Segments(t: string, p: nat): (r: seq<string>)
    requires p <= |t|
    ensures Concat(r) == t[p..]
    ensures forall i | 0 <= i < |r| :: r[i] != []
    ensures p < |t| ==> |r| > 0
    decreases |t| - p
  {
    if p == |t| then []
    else
      var e := SegmentEnd(t, p);
      var rest := Segments(t, e);
      var r := [t[p..e]] + rest;
      assert r[0] == t[p..e] && r[1..] == rest;
      assert t[p..] == t[p..e] + t[e..];
      r
  }

  /** The `map` with a running cursor that records each segment's start. */
  function Entries(texts: seq<string>, cursor: nat): (r: seq<Sentence>)
    ensures |r| == |texts|
    ensures forall i | 0 <= i < |r| :: r[i].text == texts[i]
    decreases |texts|
  {
    if |texts| == 0 then [] else [Sentence(texts[0], cursor)] + Entries(texts[1..], cursor + |texts[0]|)
  }

  function SegmentSentences(t: string): seq<Sentence> {
    Entries(Segments(t, 0), 0)
  }

  /** Each entry starts at the cursor plus the lengths of the earlier
      segments. */
  lemma {:induction false} EntriesStart(texts: seq<string>, cursor: nat, i: nat)
    requires i < |texts|
    ensures Entries(texts, cursor)[i].start == cursor + |Concat(texts[..i])|
    decreases i
  {
    if i > 0 {
      var rest := Entries(texts[1..], cursor + |texts[0]|);
      assert Entries(texts, cursor) == [Sentence(texts[0], cursor)] + rest;
      assert Entries(texts, cursor)[i] == rest[i - 1];
      EntriesStart(texts[1..], cursor + |texts[0]|, i - 1);
      var pre := texts[..i];
      assert pre[0] == texts[0] && pre[1..] == texts[1..][..i - 1];
      assert Concat(pre) == texts[0] + Concat(texts[1..][..i - 1]);
    } else {
      assert texts[..0] == [];
    }
  }

  /** The intervals `findIndex` tests in `playFromElement`. */
  function SentenceIntervals(ss: seq<Sentence>): (iv: seq<(int, int)>)
    ensures |iv| == |ss|
    ensures forall i | 0 <= i < |ss| :: iv[i] == (ss[i].start as int, ss[i].start + |ss[i].text|)
  {
    seq(|ss|, i requires 0 <= i < |ss| => (ss[i].start as int, ss[i].start + |ss[i].text|))
  }

  lemma {:induction false} ConcatSplit(texts: seq<string>, i: nat)
    requires i < |texts|
    ensures Concat(texts) == Concat(texts[..i]) + texts[i] + Concat(texts[i + 1..])
    decreases i
  {
    if i == 0 {
      assert texts[..0] == [];
    } else {
      var tl := texts[1..];
      ConcatSplit(tl, i - 1);
      assert tl[..i - 1] == texts[..i][1..];
      assert tl[i - 1] == texts[i];
      assert tl[i..] == texts[i + 1..];
      assert texts[..i][0] == texts[0];
    }
  }

  lemma {:induction false} EntriesNext(texts: seq<string>, cursor: nat, i: nat)
    requires i + 1 < |texts|
    ensures Entries(texts, cursor)[i + 1].start == Entries(texts, cursor)[i].start + |texts[i]|
    decreases i
  {
    if i > 0 {
      EntriesNext(texts[1..], cursor + |texts[0]|, i - 1);
    }
  }

  /** Sentence `i` is the slice of the text from its start. */
  lemma SentenceSlice(t: string, i: nat)
    requires i < |SegmentSentences(t)|
    ensures var s := SegmentSentences(t)[i];
            s.start + |s.text| <= |t| && t[s.start..s.start + |s.text|] == s.text
  {
    var texts := Segments(t, 0);
    assert t[0..] == t;
    EntriesStart(texts, 0, i);
    ConcatSplit(texts, i);
  }

  /** The first sentence starts the text and the last one ends it. */
  lemma SentencesCover(t: string)
    requires t != []
    ensures var ss := SegmentSentences(t);
            |ss| > 0 && ss[0].start == 0 && ss[|ss| - 1].start + |ss[|ss| - 1].text| == |t|
  {
    var texts := Segments(t, 0);
    var n := |texts| - 1;
    assert t[0..] == t;
    EntriesStart(texts, 0, n);
    ConcatSplit(texts, n);
    assert texts[n + 1..] == [];
  }

  lemma EntriesContiguous(texts: seq<string>, cursor: nat)
    ensures Contiguous(SentenceIntervals(Entries(texts, cursor)))
  {
    var iv := SentenceIntervals(Entries(texts, cursor));
    forall i, j | 0 <= i && j == i + 1 < |iv| ensures iv[j].0 == iv[i].1 {
      EntriesNext(texts, cursor, i);
    }
  }

  /** Each sentence starts where the previous one ends. */
  lemma SentencesContiguous(t: string)
    ensures Contiguous(SentenceIntervals(SegmentSentences(t)))
  {
    EntriesContiguous(Segments(t, 0), 0);
  }

  /** `ss` tiles `t`: sentence `i` is the slice of `t` from its start,
      each starts where the previous one ends, the first at the start of
      `t` and the last ending at its end. */
  predicate Tiles(t: string, ss: seq<Sentence>) {
    && |ss| > 0 && ss[0].start == 0
    && ss[|ss| - 1].start + |ss[|ss| - 1].text| == |t|
    && Contiguous(SentenceIntervals(ss))
    && forall i | 0 <= i < |ss| ::
         ss[i].start + |ss[i].text| <= |t| && t[ss[i].start..ss[i].start + |ss[i].text|] == ss[i].text
  }

  /** The sentences of a non-empty text tile it. */
  lemma SentencesTile(t: string)
    requires t != []
    ensures Tiles(t, SegmentSentences(t))
  {
    SentencesCover(t);
    SentencesContiguous(t);
    forall i | 0 <= i < |SegmentSentences(t)| {
      SentenceSlice(t, i);
    }
  }

  // ---------------------------------------------------------------------
  // Controller operations

  /** `prepareContent`: word map, full text, sentences; nothing at all
      when the page has no article body. */
  function Prepare(c: Tts): (r: Tts)
    ensures !c.article ==> r == c
    ensures c.article ==> r.fullText == c.title + Spaced(c.words) && r.wordMap == BuildWordMap(c.words)
    ensures r.state == c.state && r.sentenceIndex == c.sentenceIndex && r.charIndex == c.charIndex
    ensures c.article && r.fullText != [] ==> r.sentences == SegmentSentences(r.fullText)
  {
    if !c.article then c
    else
      var full := c.title + Spaced(c.words);
      c.(wordMap := BuildWordMap(c.words), fullText := full,
         sentences := if full == [] then c.sentences else SegmentSentences(full))
  }

  /** `stop()`; without a speech engine `speechSynthesis.cancel()` throws
      right after the state change. */
  function Stop(c: Tts): (r: Tts)
    ensures SameContent(c, r) && r.state == Stopped
    ensures c.speech ==> r.sentenceIndex == 0 && r.charIndex == 0 && r.highlighted == None && r.utterance == None
  {
    if !c.speech then c.(state := Stopped)
    else c.(state := Stopped, utterance := None, highlighted := None, sentenceIndex := 0, charIndex := 0)
  }

  /** The cursor position `speakSentence` uses in sentence `i`: kept when
      it lies inside the sentence, otherwise moved to its start. */
  function Clamp(s: Sentence, charIndex: nat): (ci: nat)
    ensures s.start <= ci <= s.start + |s.text|
    ensures s.text != [] ==> ci < s.start + |s.text|
    ensures s.start <= charIndex < s.start + |s.text| ==> ci == charIndex
  {
    if charIndex < s.start || charIndex >= s.start + |s.text| then s.start else charIndex
  }

  /** What would be spoken of sentence `j` when speaking resumes at the
      cursor: the rest of the current sentence, later sentences whole. */
  function Remainder(c: Tts, j: nat): string
    requires c.sentenceIndex <= j < |c.sentences|
  {
    var s := c.sentences[j];
    if j == c.sentenceIndex then s.text[Clamp(s, c.charIndex) - s.start..] else s.text
  }

  /** The first sentence at or after `j` with something besides
      whitespace left to say. */
  function FirstToSpeak(c: Tts, j: nat): (r: Option<nat>)
    requires c.sentenceIndex <= j
    ensures r.Some? ==> j <= r.value < |c.sentences| && !IsBlank(Remainder(c, r.value))
    ensures r.Some? ==> forall m | j <= m < r.value :: IsBlank(Remainder(c, m))
    ensures r.None? ==> forall m | j <= m < |c.sentences| :: IsBlank(Remainder(c, m))
    decreases |c.sentences| - j
  {
    if j >= |c.sentences| then None
    else if !IsBlank(Remainder(c, j)) then Some(j)
    else FirstToSpeak(c, j + 1)
  }

  /** Where the cursor lands in sentence `j` when speaking from it. */
  function StartChar(c: Tts, j: nat): nat
    requires c.sentenceIndex <= j < |c.sentences|
  {
    if j == c.sentenceIndex then Clamp(c.sentences[j], c.charIndex) else c.sentences[j].start
  }

  lemma NextCursor(c: Tts, j: nat)
    requires c.sentenceIndex < j < |c.sentences|
    ensures var next := c.(sentenceIndex := c.sentenceIndex + 1, charIndex := 0);
            StartChar(next, j) == StartChar(c, j) && Remainder(next, j) == Remainder(c, j)
  {
  }

  /** Moving the cursor to the start of the next sentence leaves the
      search for something to say unchanged from there on. */
  lemma {:induction false} FirstToSpeakNext(c: Tts, j: nat)
    requires c.sentenceIndex < j
    ensures FirstToSpeak(c.(sentenceIndex := c.sentenceIndex + 1, charIndex := 0), j) == FirstToSpeak(c, j)
    decreases |c.sentences| - j
  {
    var next := c.(sentenceIndex := c.sentenceIndex + 1, charIndex := 0);
    if j < |c.sentences| {
      assert Remainder(next, j) == Remainder(c, j);
      FirstToSpeakNext(c, j + 1);
    }
  }

  /** Only the cursor, the state, the highlight and the utterance differ. */
  predicate SameContent(a: Tts, b: Tts) {
    && a.speech == b.speech && a.article == b.article && a.controls == b.controls && a.title == b.title && a.words == b.words
    && a.wordMap == b.wordMap && a.fullText == b.fullText && a.sentences == b.sentences
  }

  /** `speakSentence()`: skips sentences with nothing but whitespace
      left from the cursor, stops when it runs out of sentences, and
      otherwise hands the engine the rest of the sentence. */
  function SpeakSentence(c: Tts): (r: Tts)
    ensures SameContent(c, r)
    ensures r.state == c.state || r.state == Stopped
    decreases |c.sentences| - c.sentenceIndex
  {
    if c.sentenceIndex >= |c.sentences| then Stop(c)
    else
      var s := c.sentences[c.sentenceIndex];
      var ci := Clamp(s, c.charIndex);
      var rest := s.text[ci - s.start..];
      if IsBlank(rest) then SpeakSentence(c.(sentenceIndex := c.sentenceIndex + 1, charIndex := 0))
      else c.(charIndex := ci, utterance := Some(rest))
  }

  /** Speaking starts at the first sentence, at or after the current one,
      that has something to say: the cursor moves there and its remainder
      is handed to the engine; when there is none, the player stops. */
  lemma {:induction false} SpeakSentenceSpeaks(c: Tts)
    ensures var r := SpeakSentence(c);
            var f := FirstToSpeak(c, c.sentenceIndex);
            && (f.None? ==> r.state == Stopped)
            && (f.None? && c.speech ==> r == Stop(c))
            && (f.None? && !c.speech ==> r.highlighted == c.highlighted && r.utterance == c.utterance)
            && (f.Some? ==>
                 r == c.(sentenceIndex := f.value, charIndex := StartChar(c, f.value),
                         utterance := Some(Remainder(c, f.value))))
    decreases |c.sentences| - c.sentenceIndex
  {
    if c.sentenceIndex < |c.sentences| {
      var s := c.sentences[c.sentenceIndex];
      var rest := s.text[Clamp(s, c.charIndex) - s.start..];
      assert Remainder(c, c.sentenceIndex) == rest;
      if IsBlank(rest) {
        var next := c.(sentenceIndex := c.sentenceIndex + 1, charIndex := 0);
        FirstToSpeakNext(c, c.sentenceIndex + 1);
        SpeakSentenceSpeaks(next);
        var f := FirstToSpeak(c, c.sentenceIndex + 1);
        if f.Some? {
          NextCursor(c, f.value);
        }
      }
    }
  }

  /** The state is `playing` or `paused`. */
  predicate Active(c: Tts) {
    c.state == Playing || c.state == Paused
  }

  /** Word map, full text and sentences are those `prepareContent` builds. */
  predicate Prepared(c: Tts) {
    && c.fullText == c.title + Spaced(c.words)
    && c.wordMap == BuildWordMap(c.words)
    && c.sentences == SegmentSentences(c.fullText)
  }

  /** What every reachable controller satisfies: nothing is mapped or
      highlighted before content is prepared, sentences are non-empty, a
      highlighted word exists, and while playing or paused the cursor sits
      inside a sentence with something left to say, which is exactly what
      was handed to the engine while playing and nothing while paused. */
  predicate Inv(c: Tts) {
    ContentOk(c) && CursorOk(c)
  }

  predicate ContentOk(c: Tts) {
    && c.title != []
    && (c.sentences == [] ==> c.wordMap == [] && c.highlighted == None)
    && (forall i | 0 <= i < |c.sentences| :: c.sentences[i].text != [])
    && (c.highlighted.Some? ==> c.highlighted.value < |c.wordMap|)
  }

  predicate CursorOk(c: Tts) {
    Active(c) ==>
      && c.speech && c.sentenceIndex < |c.sentences|
      && c.sentences[c.sentenceIndex].start <= c.charIndex
      && c.charIndex < c.sentences[c.sentenceIndex].start + |c.sentences[c.sentenceIndex].text|
      && !IsBlank(Remainder(c, c.sentenceIndex))
      && c.utterance == (if c.state == Playing then Some(Remainder(c, c.sentenceIndex)) else None)
  }

  /** Content is either not prepared yet or built from the page. */
  predicate Consistent(c: Tts) {
    c.sentences == [] || Prepared(c)
  }

  lemma ContentTransfers(c: Tts, r: Tts)
    requires ContentOk(c) && SameContent(c, r)
    requires r.highlighted == c.highlighted || r.highlighted == None
    ensures ContentOk(r)
  {
  }

  /** `pause()`: only from `playing`; the utterance is cancelled. */
  function Pause(c: Tts): (r: Tts)
    ensures c.state == Playing ==> r.state == Paused && r.utterance == None
    ensures c.state != Playing ==> r == c
    ensures SameContent(c, r) && r.sentenceIndex == c.sentenceIndex && r.charIndex == c.charIndex
  {
    if c.state == Playing then c.(state := Paused, utterance := None) else c
  }

  /** `resume()`: only from `paused`; speaking restarts at the cursor. */
  function Resume(c: Tts): (r: Tts)
    ensures c.state == Paused ==> r.state == Playing || r.state == Stopped
    ensures c.state != Paused ==> r == c
    ensures SameContent(c, r)
  {
    if c.state == Paused then SpeakSentence(c.(state := Playing)) else c
  }

  /** `play()`: without a speech engine the state becomes `error`;
      otherwise content is prepared if needed and speaking starts, unless
      there are still no sentences (no article body), when nothing
      happens. */
  function Play(c: Tts): (r: Tts)
    ensures !c.speech ==> r == c.(state := Error)
    ensures c.speech && c.title != [] && c.article ==> r.state == Playing || r.state == Stopped
    ensures c.speech && !c.article && c.sentences == [] ==> r == c
    ensures c.speech ==> SameContent(PrepareIfNeeded(c), r)
  {
    if !c.speech then c.(state := Error)
    else
      var p := PrepareIfNeeded(c);
      if p.sentences == [] then p
      else
        assert p.fullText != [] ==> |SegmentSentences(p.fullText)| > 0;
        SpeakSentence(p.(state := Playing))
  }

  /** `toggle()`: playing pauses, paused resumes, any other state plays. */
  function Toggle(c: Tts): (r: Tts)
    ensures c.state == Playing ==> r.state == Paused
    ensures c.state == Paused ==> r.state == Playing || r.state == Stopped
    ensures SameContent(c, r) || SameContent(PrepareIfNeeded(c), r)
    ensures c.state == Playing ==> r == Pause(c)
    ensures c.state == Paused ==> r == Resume(c)
    ensures c.state != Playing && c.state != Paused ==> r == Play(c)
  {
    match c.state
    case Playing => Pause(c)
    case Paused => Resume(c)
    case _ => Play(c)
  }

  /** The first word, in document order, that lies in the element. */
  function FirstWordIn(element: set<nat>, n: nat, k: nat): (r: Option<nat>)
    ensures r.Some? ==> k <= r.value < n && r.value in element
    ensures r.Some? ==> forall j | k <= j < r.value :: j !in element
    ensures r.None? ==> forall j | k <= j < n :: j !in element
    decreases n - k
  {
    if k >= n then None
    else if k in element then Some(k)
    else FirstWordIn(element, n, k + 1)
  }

  /** `playFromElement()`: speaking jumps to the sentence holding the
      element's first word, at that word.  Without a speech engine the
      cursor moves and `cancel()` throws before the state changes. */
  function PlayFromElement(c: Tts, element: set<nat>): (r: Tts)
    ensures r.words == c.words && r.title == c.title
    ensures r.state == c.state || r.state == Playing || r.state == Stopped
  {
    JumpToWord(PrepareIfNeeded(c), element)
  }

  /** The guard `if (this.sentences.length === 0) this.prepareContent()`. */
  function PrepareIfNeeded(c: Tts): Tts {
    if c.sentences == [] then Prepare(c) else c
  }

  /** The jump itself: nothing happens when the element holds no word or
      no sentence holds the offset of its first word. */
  function JumpToWord(p: Tts, element: set<nat>): (r: Tts)
    ensures SameContent(p, r)
    ensures r.state == p.state || r.state == Playing || r.state == Stopped
    ensures FirstWordIn(element, |p.wordMap|, 0).None? ==> r == p
    ensures FirstWordIn(element, |p.wordMap|, 0).Some?
            && (forall j | 0 <= j < |p.sentences| ::
                  var g := |p.title| + p.wordMap[FirstWordIn(element, |p.wordMap|, 0).value].start;
                  !(p.sentences[j].start <= g < p.sentences[j].start + |p.sentences[j].text|))
            ==> r == p
  {
    var w := FirstWordIn(element, |p.wordMap|, 0);
    if w.None? then p
    else
      var g := |p.title| + p.wordMap[w.value].start;
      var s := FindContaining(SentenceIntervals(p.sentences), g, 0);
      if s.None? then p
      else
        assert Holds(p.sentences, s.value, g);
        StartAt(p, s.value, g)
  }

  /** Moves the cursor, cancels and speaks from there. */
  function StartAt(p: Tts, s: nat, g: nat): (r: Tts)
    ensures SameContent(p, r)
    ensures r.state == p.state || r.state == Playing || r.state == Stopped
  {
    var q := p.(sentenceIndex := s, charIndex := g);
    if !q.speech then q else SpeakSentence(q.(utterance := None, state := Playing))
  }

  /** `highlightWord()`: inside the title nothing is marked; past it, the
      first word whose `[start - 1, end)` holds the offset is marked, and
      when none does the mark stays where it was. */
  function HighlightWord(c: Tts, charIndex: int): (r: Tts)
    ensures r == c.(highlighted := r.highlighted)
    ensures charIndex < |c.title| ==> r.highlighted == None
    ensures r.highlighted.Some? && r.highlighted != c.highlighted ==>
      r.highlighted.value < |c.wordMap| &&
      var w := c.wordMap[r.highlighted.value];
      w.start - 1 <= charIndex - |c.title| < w.end
  {
    if charIndex < |c.title| then c.(highlighted := None)
    else
      match FindContaining(WordIntervals(c.wordMap), charIndex - |c.title|, 0)
      case Some(i) => c.(highlighted := Some(i))
      case None => c
  }

  /** Events of the page and of the current utterance. */
  datatype Event =
    | TogglePressed
    | PlayRequested
    | PauseRequested
    | ResumeRequested
    | StopPressed
    | ElementClicked(element: set<nat>)
    | Boundary(offset: nat, isWord: bool)   // `onboundary`, offset in the utterance
    | Ended                                 // `onend`
    | Failed(interrupted: bool)             // `onerror`
    | SpeedChanged

  /** `onboundary`: a word boundary at `offset` in the utterance marks
      the word at that offset plus the utterance's start. */
  function OnBoundary(c: Tts, offset: nat, isWord: bool): (r: Tts)
    ensures SameContent(c, r) && r.state == c.state
  {
    if isWord then HighlightWord(c, offset + c.charIndex) else c
  }

  /** `onend`: while playing, moves on to the next sentence. */
  function OnEnd(c: Tts): (r: Tts)
    ensures SameContent(c, r)
    ensures c.state != Playing ==> r == c
  {
    if c.state == Playing
    then SpeakSentence(c.(utterance := None, sentenceIndex := c.sentenceIndex + 1, charIndex := 0))
    else c
  }

  /** `onerror`: while playing, any error but an interruption stops. */
  function OnError(c: Tts, interrupted: bool): (r: Tts)
    ensures SameContent(c, r)
    ensures r.state == (if c.state == Playing && !interrupted then Stopped else c.state)
  {
    if c.state == Playing && !interrupted then Stop(c) else c
  }

  /** `updateSpeed`: while playing, the current sentence is restarted
      from the cursor at the new rate. */
  function UpdateSpeed(c: Tts): (r: Tts)
    ensures SameContent(c, r)
    ensures c.state != Playing ==> r == c
  {
    if c.state == Playing then SpeakSentence(c.(utterance := None)) else c
  }

  /** One event. Without its controls `init()` bound no listener, so no
      event reaches the controller. */
  function Step(c: Tts, e: Event): (r: Tts)
    ensures r.words == c.words && r.title == c.title && r.speech == c.speech
    ensures r.controls == c.controls
    ensures !c.controls ==> r == c
  {
    if !c.controls then c
    else
    match e
    case TogglePressed => Toggle(c)
    case PlayRequested => Play(c)
    case PauseRequested => Pause(c)
    case ResumeRequested => Resume(c)
    case StopPressed => Stop(c)
    case ElementClicked(el) => PlayFromElement(c, el)
    case Boundary(k, isWord) => OnBoundary(c, k, isWord)
    case Ended => OnEnd(c)
    case Failed(interrupted) => OnError(c, interrupted)
    case SpeedChanged => UpdateSpeed(c)
  }

  // ---------------------------------------------------------------------
  // Properties

  lemma SentenceTextsNonEmpty(t: string, i: nat)
    requires i < |SegmentSentences(t)|
    ensures SegmentSentences(t)[i].text != []
  {
  }

  /** Speaking from a controller whose content is in order leaves the
      invariant holding. */
  lemma SpeakKeepsInv(c: Tts)
    requires ContentOk(c) && c.state == Playing && c.speech
    ensures Inv(SpeakSentence(c))
  {
    var r := SpeakSentence(c);
    SpeakSentenceSpeaks(c);
    ContentTransfers(c, r);
    if FirstToSpeak(c, c.sentenceIndex).Some? {
      var j := r.sentenceIndex;
      assert c.sentences[j].text != [];
      assert Remainder(r, j) == Remainder(c, j);
    } else {
      assert !Active(r);
    }
  }

  lemma PrepareKeepsInv(c: Tts)
    requires Inv(c) && c.sentences == []
    ensures Inv(Prepare(c))
    ensures c.article ==> Prepare(c).sentences != [] && Prepared(Prepare(c))
  {
    if !c.article {
      return;
    }
    var p := Prepare(c);
    assert |p.fullText| > 0;
    SentencesCover(p.fullText);
    forall i | 0 <= i < |p.sentences| ensures p.sentences[i].text != [] {
      SentenceTextsNonEmpty(p.fullText, i);
    }
  }

  lemma ConsistentTransfers(c: Tts, r: Tts)
    requires Consistent(c) && SameContent(c, r)
    ensures Consistent(r)
  {
  }

  lemma PrepareConsistent(c: Tts)
    requires Consistent(c)
    ensures Consistent(PrepareIfNeeded(c))
  {
  }

  /** Every event either leaves the content alone or prepares it. */
  lemma StepKeepsConsistent(c: Tts, e: Event)
    requires Consistent(c)
    ensures Consistent(Step(c, e))
  {
    var r := Step(c, e);
    if !c.controls { return; }
    match e
    case TogglePressed =>
      PrepareConsistent(c);
      if !SameContent(c, r) {
        ConsistentTransfers(PrepareIfNeeded(c), r);
      }
    case PlayRequested =>
      PrepareConsistent(c);
      if c.speech {
        ConsistentTransfers(PrepareIfNeeded(c), r);
      }
    case ElementClicked(el) =>
      PrepareConsistent(c);
      ConsistentTransfers(PrepareIfNeeded(c), r);
    case _ => ConsistentTransfers(c, r);
  }

  /** Every event keeps the invariant. */
  lemma StepKeepsInv(c: Tts, e: Event)
    requires Inv(c)
    ensures Inv(Step(c, e))
  {
    match e
    case TogglePressed => ToggleKeepsInv(c);
    case PlayRequested => PlayKeepsInv(c);
    case PauseRequested => PauseKeepsInv(c);
    case ResumeRequested => ResumeKeepsInv(c);
    case StopPressed => StopKeepsInv(c);
    case ElementClicked(el) => ElementKeepsInv(c, el);
    case Boundary(k, isWord) => BoundaryKeepsInv(c, k, isWord);
    case Ended => EndKeepsInv(c);
    case Failed(interrupted) => StopKeepsInv(c);
    case SpeedChanged => SpeedKeepsInv(c);
  }

  lemma ToggleKeepsInv(c: Tts)
    requires Inv(c)
    ensures Inv(Toggle(c))
  {
    match c.state
    case Playing => PauseKeepsInv(c);
    case Paused => ResumeKeepsInv(c);
    case _ => PlayKeepsInv(c);
  }

  lemma PauseKeepsInv(c: Tts)
    requires Inv(c)
    ensures Inv(Pause(c))
  {
    var r := Pause(c);
    ContentTransfers(c, r);
    if c.state == Playing {
      assert Remainder(r, r.sentenceIndex) == Remainder(c, c.sentenceIndex);
    }
  }

  lemma ResumeKeepsInv(c: Tts)
    requires Inv(c)
    ensures Inv(Resume(c))
  {
    if c.state == Paused {
      var p := c.(state := Playing);
      ContentTransfers(c, p);
      SpeakKeepsInv(p);
    }
  }

  lemma StopKeepsInv(c: Tts)
    requires Inv(c)
    ensures Inv(Stop(c))
  {
    ContentTransfers(c, Stop(c));
  }

  lemma BoundaryKeepsInv(c: Tts, k: nat, isWord: bool)
    requires Inv(c)
    ensures Inv(OnBoundary(c, k, isWord))
  {
    var r := OnBoundary(c, k, isWord);
    assert Active(r) ==> Remainder(r, r.sentenceIndex) == Remainder(c, c.sentenceIndex);
  }

  lemma EndKeepsInv(c: Tts)
    requires Inv(c)
    ensures Inv(OnEnd(c))
  {
    if c.state == Playing {
      var p := c.(utterance := None, sentenceIndex := c.sentenceIndex + 1, charIndex := 0);
      ContentTransfers(c, p);
      SpeakKeepsInv(p);
    }
  }

  lemma SpeedKeepsInv(c: Tts)
    requires Inv(c)
    ensures Inv(UpdateSpeed(c))
  {
    if c.state == Playing {
      var p := c.(utterance := None);
      ContentTransfers(c, p);
      SpeakKeepsInv(p);
    }
  }

  lemma PlayKeepsInv(c: Tts)
    requires Inv(c)
    ensures Inv(Play(c))
  {
    if c.speech {
      var p := PrepareIfNeeded(c);
      PrepareIfNeededKeepsInv(c);
      if p.sentences != [] {
        var q := p.(state := Playing);
        ContentTransfers(p, q);
        SpeakKeepsInv(q);
      }
    }
  }

  lemma PrepareIfNeededKeepsInv(c: Tts)
    requires Inv(c)
    ensures Inv(PrepareIfNeeded(c))
  {
    if c.sentences == [] {
      PrepareKeepsInv(c);
    }
  }

  lemma ElementKeepsInv(c: Tts, el: set<nat>)
    requires Inv(c)
    ensures Inv(PlayFromElement(c, el))
  {
    PrepareIfNeededKeepsInv(c);
    JumpKeepsInv(PrepareIfNeeded(c), el);
  }

  lemma JumpKeepsInv(p: Tts, el: set<nat>)
    requires Inv(p)
    ensures Inv(JumpToWord(p, el))
  {
    var w := FirstWordIn(el, |p.wordMap|, 0);
    if w.Some? {
      var g := |p.title| + p.wordMap[w.value].start;
      var s := FindContaining(SentenceIntervals(p.sentences), g, 0);
      if s.Some? {
        StartKeepsInv(p, s.value, g);
      }
    }
  }

  lemma StartKeepsInv(p: Tts, s: nat, g: nat)
    requires ContentOk(p) && (Active(p) ==> p.speech)
    ensures Inv(StartAt(p, s, g))
  {
    var q := p.(sentenceIndex := s, charIndex := g);
    if q.speech {
      var q' := q.(utterance := None, state := Playing);
      ContentTransfers(p, q');
      SpeakKeepsInv(q');
    } else {
      ContentTransfers(p, q);
    }
  }

  /** Pausing and then resuming (two presses of the play/pause button)
      gives back the same controller: same sentence, same character, same
      text handed to the engine; and resuming then pausing too. */
  lemma ToggleTwice(c: Tts)
    requires Inv(c) && Active(c)
    ensures Toggle(Toggle(c)) == c
  {
    if c.state == Paused {
      var p := c.(state := Playing);
      assert Remainder(p, p.sentenceIndex) == Remainder(c, c.sentenceIndex);
      assert FirstToSpeak(p, p.sentenceIndex) == Some(p.sentenceIndex);
      SpeakSentenceSpeaks(p);
    } else {
      var p := c.(state := Playing, utterance := None);
      assert Remainder(p, p.sentenceIndex) == Remainder(c, c.sentenceIndex);
      assert FirstToSpeak(p, p.sentenceIndex) == Some(p.sentenceIndex);
      SpeakSentenceSpeaks(p);
    }
  }

  /** Starting from a stopped player with a speech engine, `play` either
      plays from the first sentence that has anything to say or, when no
      sentence has, stops. */
  lemma PlayFromStopped(c: Tts)
    requires Inv(c) && c.speech && c.state == Stopped
    ensures var r := Play(c);
            r.state == Playing ==> r.sentences != [] && r.utterance.Some? && !IsBlank(r.utterance.value)
  {
    PlayKeepsInv(c);
  }

  /** A word offset past the title and before the end of the last word is
      in exactly one word's `[start - 1, end)`, and that word gets marked;
      past the last word nothing changes. */
  lemma HighlightUnique(ws: seq<string>, c: Tts, charIndex: int)
    requires c.wordMap == BuildWordMap(ws) && |ws| > 0
    ensures var m := c.wordMap;
            var x := charIndex - |c.title|;
            |c.title| <= charIndex < |c.title| + m[|m| - 1].end ==>
              && HighlightWord(c, charIndex).highlighted.Some?
              && var i := HighlightWord(c, charIndex).highlighted.value;
                 i < |m| && m[i].start - 1 <= x < m[i].end
                 && forall j | 0 <= j < |m| && m[j].start - 1 <= x < m[j].end :: j == i
    ensures var m := c.wordMap;
            charIndex >= |c.title| + m[|m| - 1].end ==> HighlightWord(c, charIndex) == c
  {
    var m := c.wordMap;
    var iv := WordIntervals(m);
    var x := charIndex - |c.title|;
    WordIntervalsContiguous(ws);
    assert iv[0].0 == -1 by {
      assert ws[..0] == [];
    }
    if |c.title| <= charIndex < |c.title| + m[|m| - 1].end {
      ContiguousFind(iv, x);
    }
    if charIndex >= |c.title| + m[|m| - 1].end {
      forall j | 0 <= j < |iv| ensures !(iv[j].0 <= x < iv[j].1) {
        if j < |iv| - 1 {
          ContiguousOrdered(iv, j, |iv| - 1);
        }
      }
    }
  }

  /** Sentence `j` holds the character at offset `g` of the full text. */
  predicate Holds(ss: seq<Sentence>, j: int, g: int) {
    0 <= j < |ss| && ss[j].start <= g < ss[j].start + |ss[j].text|
  }

  /** `r` plays sentence `s` of `ss` from the text offset `g` inside it,
      handing the engine the rest of that sentence. */
  predicate SpeaksFrom(ss: seq<Sentence>, s: int, g: int, r: Tts) {
    && r.state == Playing && r.sentenceIndex == s && r.charIndex == g
    && Holds(ss, s, g)
    && r.utterance == Some(ss[s].text[g - ss[s].start..])
  }

  /** Offset of word `w` in the full text. */
  function WordStart(p: Tts, w: nat): nat
    requires w < |p.wordMap|
  {
    |p.title| + p.wordMap[w].start
  }

  /** `r` speaks from the start of word `w` of `p`, in the one sentence
      of `p` that holds that character. */
  predicate LandsOnWord(p: Tts, w: nat, r: Tts)
    requires w < |p.wordMap|
  {
    && SpeaksFrom(p.sentences, r.sentenceIndex, WordStart(p, w), r)
    && (forall j | 0 <= j < |p.sentences| && Holds(p.sentences, j, WordStart(p, w)) :: j == r.sentenceIndex)
  }

  /** Clicking an element whose first word starts with a non-space
      character starts playing at that word, in the one sentence that
      holds it, and hands the engine that sentence from the word on. */
  lemma PlayFromElementLands(c: Tts, element: set<nat>)
    requires Inv(c) && Consistent(c) && c.speech && c.article
    requires FirstWordIn(element, |c.words|, 0).Some?
    requires var w := FirstWordIn(element, |c.words|, 0).value;
             c.words[w] != [] && !IsSpace(c.words[w][0])
    ensures var p := PrepareIfNeeded(c);
            var w := FirstWordIn(element, |c.words|, 0).value;
            |p.wordMap| == |c.words| && LandsOnWord(p, w, PlayFromElement(c, element))
  {
    PreparedTiles(c);
    var p := PrepareIfNeeded(c);
    var w := FirstWordIn(element, |c.words|, 0).value;
    WordFirstChar(c.title, c.words, w);
    ElementLands(p, element, w, |p.title| + p.wordMap[w].start);
    assert PlayFromElement(c, element) == JumpToWord(p, element);
  }

  /** The landing argument for a controller whose sentences tile its text:
      `g` is where the element's first word starts. */
  lemma ElementLands(p: Tts, element: set<nat>, w: nat, g: nat)
    requires p.speech && Tiles(p.fullText, p.sentences)
    requires FirstWordIn(element, |p.wordMap|, 0) == Some(w)
    requires g == |p.title| + p.wordMap[w].start && g < |p.fullText| && !IsSpace(p.fullText[g])
    ensures LandsOnWord(p, w, JumpToWord(p, element))
  {
    var s := SentenceOf(p.fullText, p.sentences, g);
    JumpLandsIn(p, element, w, s, g);
  }

  lemma JumpLandsIn(p: Tts, element: set<nat>, w: nat, s: nat, g: nat)
    requires p.speech && FirstWordIn(element, |p.wordMap|, 0) == Some(w)
    requires g == |p.title| + p.wordMap[w].start
    requires FindContaining(SentenceIntervals(p.sentences), g, 0) == Some(s)
    requires Holds(p.sentences, s, g) && forall j | Holds(p.sentences, j, g) :: j == s
    requires !IsSpace(p.sentences[s].text[g - p.sentences[s].start])
    ensures LandsOnWord(p, w, JumpToWord(p, element))
  {
    JumpLands(p, element, w, s);
    StartAtSpeaks(p, s, g);
    var r := JumpToWord(p, element);
    assert r == StartAt(p, s, g);
    assert SpeaksFrom(p.sentences, s, g, r);
    assert r.sentenceIndex == s && WordStart(p, w) == g;
  }

  /** After preparation the sentences tile the full text. */
  lemma PreparedTiles(c: Tts)
    requires Inv(c) && Consistent(c) && c.article
    ensures var p := PrepareIfNeeded(c);
            && p.title == c.title && p.words == c.words && p.speech == c.speech
            && p.fullText == c.title + Spaced(c.words) && p.wordMap == BuildWordMap(c.words)
            && Tiles(p.fullText, p.sentences)
  {
    PrepareIfNeededKeepsInv(c);
    PrepareConsistent(c);
    if c.sentences == [] {
      PrepareKeepsInv(c);
    }
    SentencesTile(PrepareIfNeeded(c).fullText);
  }

  /** The first character of word `i` sits at its recorded start. */
  lemma WordFirstChar(title: string, ws: seq<string>, i: nat)
    requires i < |ws| && ws[i] != []
    ensures var t := title + Spaced(ws);
            var g := |title| + BuildWordMap(ws)[i].start;
            g < |t| && t[g] == ws[i][0]
  {
    WordLocated(title, ws, i);
    var t := title + Spaced(ws);
    var g := |title| + BuildWordMap(ws)[i].start;
    assert t[g..g + |ws[i]|][0] == t[g];
  }

  lemma JumpLands(p: Tts, element: set<nat>, w: nat, s: nat)
    requires FirstWordIn(element, |p.wordMap|, 0) == Some(w)
    requires FindContaining(SentenceIntervals(p.sentences), |p.title| + p.wordMap[w].start, 0) == Some(s)
    ensures JumpToWord(p, element) == StartAt(p, s, |p.title| + p.wordMap[w].start)
  {
  }

  /** A character of a tiled text lies in exactly one sentence, the one
      `findIndex` returns. */
  lemma SentenceOf(t: string, ss: seq<Sentence>, g: nat) returns (s: nat)
    requires Tiles(t, ss) && g < |t|
    ensures FindContaining(SentenceIntervals(ss), g, 0) == Some(s)
    ensures Holds(ss, s, g) && forall j | Holds(ss, j, g) :: j == s
    ensures ss[s].text[g - ss[s].start] == t[g]
  {
    var iv := SentenceIntervals(ss);
    ContiguousFind(iv, g);
    s := FindContaining(iv, g, 0).value;
    forall j | Holds(ss, j, g) ensures j == s {
      assert iv[j].0 <= g < iv[j].1;
    }
    var a, n := ss[s].start, |ss[s].text|;
    assert ss[s].text == t[a..a + n];
    assert t[a..a + n][g - a] == t[g];
  }

  /** Starting at a character inside a sentence, when that character is
      not whitespace, plays that sentence from there. */
  lemma StartAtSpeaks(p: Tts, s: nat, g: nat)
    requires p.speech && Holds(p.sentences, s, g)
    requires !IsSpace(p.sentences[s].text[g - p.sentences[s].start])
    ensures SpeaksFrom(p.sentences, s, g, StartAt(p, s, g))
  {
    var q := p.(sentenceIndex := s, charIndex := g, utterance := None, state := Playing);
    var sen := p.sentences[s];
    var rest := Remainder(q, s);
    assert rest == sen.text[g - sen.start..];
    assert rest[0] == sen.text[g - sen.start];
    assert FirstToSpeak(q, s) == Some(s);
    SpeakSentenceSpeaks(q);
  }
}
