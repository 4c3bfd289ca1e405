/** `chunkText` of the audio generator: a text longer than the limit is cut
    into sentences by the regular expression `[^.!?]+([.!?]+(\s+|$))?`,
    the sentences are packed greedily into chunks of at most `maxLength`
    characters, and a sentence that is longer than the limit on its own is
    cut by `.{1,maxLength}`.

    Two quirks of those expressions are kept: a run of `.!?` that is not
    followed by whitespace or the end of the text is not part of any match
    and disappears (the `.` of `3.5`), and `.` does not match line
    terminators, so the hard-split pieces lose the line breaks of the
    sentence.  What chunking does preserve is the `Content` of the text:
    its characters other than whitespace and sentence marks, in order. */
module Chunker {
  import opened JsText

  const DefaultMaxLength := 2000

  /** The characters of `s` that are neither whitespace nor `.!?`. */
  function Content(s: string): string {
    if |s| == 0 then []
    else if IsSpace(s[0]) || IsMark(s[0]) then Content(s[1..])
    else [s[0]] + Content(s[1..])
  }

  // ---------------------------------------------------------------------
  // Sentence regular expression

  /** Length of the match of `[^.!?]+([.!?]+(\s+|$))?` at the start of
      `t`, which begins with a non-mark.  The optional group is taken only
      when the run of marks is followed by whitespace (taken greedily) or
      by the end of the text. */
  function SentenceLength(t: string): (n: nat)
    requires |t| > 0 && !IsMark(t[0])
    ensures 0 < n <= |t|
  {
    var a := RunEnd(t, 0, c => !IsMark(c));
    if a == |t| then a
    else
      var b := RunEnd(t, a, IsMark);
      if b == |t| then b
      else if IsSpace(t[b]) then RunEnd(t, b, IsSpace)
      else a
  }

  /** `text.match(sentenceRegex)`: all matches, left to right.  A mark at
      a position where no match starts is skipped. */
  function Sentences(t: string): (r: seq<string>)
    ensures forall k | 0 <= k < |r| :: |r[k]| > 0 && !IsMark(r[k][0])
    decreases |t|
  {
    if |t| == 0 then []
    else if IsMark(t[0]) then Sentences(t[1..])
    else
      var n := SentenceLength(t);
      [t[..n]] + Sentences(t[n..])
  }

  /** `text.match(sentenceRegex) || [text]`. */
  function SentenceList(t: string): seq<string> {
    var r := Sentences(t);
    if |r| == 0 then [t] else r
  }

  // ---------------------------------------------------------------------
  // Hard split of an oversize sentence

  /** `sentence.match(/.{1,L}/g)`: maximal pieces of at most `L`
      characters, none containing a line terminator; line terminators are
      skipped. */
  function HardSplit(s: string, maxLength: nat): (r: seq<string>)
    requires maxLength >= 1
    ensures forall k | 0 <= k < |r| :: 0 < |r[k]| <= maxLength
    ensures forall k, j | 0 <= k < |r| && 0 <= j < |r[k]| :: !IsLineTerminator(r[k][j])
    decreases |s|
  {
    if |s| == 0 then []
    else if IsLineTerminator(s[0]) then HardSplit(s[1..], maxLength)
    else
      var e := RunEnd(s, 0, c => !IsLineTerminator(c));
      var n := if e < maxLength then e else maxLength;
      [s[..n]] + HardSplit(s[n..], maxLength)
  }

  /** `sentence.match(...) || [sentence]`. */
  function Pieces(s: string, maxLength: nat): seq<string>
    requires maxLength >= 1
  {
    var r := HardSplit(s, maxLength);
    if |r| == 0 then [s] else r
  }

  // ---------------------------------------------------------------------
  // Greedy packing

  /** `chunkText(text, maxLength)`. */
  method ChunkText(text: string, maxLength: int) returns (chunks: seq<string>)
    requires maxLength >= 1
    ensures |text| <= maxLength ==> chunks == [text]
    ensures forall k | 0 <= k < |chunks| :: |chunks[k]| <= maxLength
    ensures Content(Concat(chunks)) == Content(text)
  {
    if |text| <= maxLength {
      assert Concat([text]) == text + Concat([]) == text;
      return [text];
    }
    chunks := [];
    var current := "";
    var sentences := SentenceList(text);
    var i := 0;
    while i < |sentences|
      invariant 0 <= i <= |sentences|
      invariant |current| <= maxLength
      invariant forall k | 0 <= k < |chunks| :: |chunks[k]| <= maxLength
      invariant Content(Concat(chunks)) + Content(current) == Content(Concat(sentences[..i]))
    {
      PrefixStep(sentences, i);
      chunks, current := AddSentence(chunks, current, sentences[i], maxLength);
      i := i + 1;
    }
    assert sentences[..i] == sentences;
    SentencesKeepContent(text);
    if |current| > 0 {
      chunks := FlushBuffer(chunks, current, maxLength);
    } else {
      assert Content(current) == [];
    }
  }

  /** One turn of the packing loop: skip a blank sentence; if the sentence
      does not fit behind the pending buffer, flush the buffer first, then
      either hard-split the sentence (when it exceeds the limit by itself)
      or start the new buffer with it; otherwise append it to the buffer. */
  method AddSentence(chunks: seq<string>, current: string, sentence: string, maxLength: int)
    returns (chunks': seq<string>, current': string)
    requires maxLength >= 1 && |current| <= maxLength
    requires forall k | 0 <= k < |chunks| :: |chunks[k]| <= maxLength
    ensures |current'| <= maxLength
    ensures forall k | 0 <= k < |chunks'| :: |chunks'[k]| <= maxLength
    ensures Content(Concat(chunks')) + Content(current')
            == Content(Concat(chunks)) + Content(current) + Content(sentence)
  {
    chunks', current' := chunks, current;
    if IsBlank(sentence) {
      ContentBlank(sentence);
      return;
    }
    if |current + sentence| > maxLength {
      if |current| > 0 {
        chunks' := FlushBuffer(chunks, current, maxLength);
        current' := "";
      }
      if |sentence| > maxLength {
        chunks' := PushPieces(chunks', sentence, maxLength);
      } else {
        ContentAppend(current', sentence);
        current' := current' + sentence;
      }
    } else {
      ContentAppend(current, sentence);
      current' := current + sentence;
    }
  }

  /** `chunks.push(currentChunk.trim())`. */
  method FlushBuffer(chunks: seq<string>, current: string, maxLength: int) returns (chunks': seq<string>)
    requires |current| <= maxLength
    requires forall k | 0 <= k < |chunks| :: |chunks[k]| <= maxLength
    ensures forall k | 0 <= k < |chunks'| :: |chunks'[k]| <= maxLength
    ensures Content(Concat(chunks')) == Content(Concat(chunks)) + Content(current)
  {
    Flush(chunks, current);
    chunks' := chunks + [Trim(current)];
  }

  /** `chunks.push(...subChunks)` for an oversize, non-blank sentence. */
  method PushPieces(chunks: seq<string>, sentence: string, maxLength: int) returns (chunks': seq<string>)
    requires maxLength >= 1 && !IsBlank(sentence)
    requires forall k | 0 <= k < |chunks| :: |chunks[k]| <= maxLength
    ensures forall k | 0 <= k < |chunks'| :: |chunks'[k]| <= maxLength
    ensures Content(Concat(chunks')) == Content(Concat(chunks)) + Content(sentence)
  {
    var pieces := Pieces(sentence, maxLength);
    PiecesFit(sentence, maxLength);
    AppendPieces(chunks, pieces);
    chunks' := chunks + pieces;
  }

  // ---------------------------------------------------------------------
  // Lemmas

  lemma {:induction false} ContentAppend(a: string, b: string)
    ensures Content(a + b) == Content(a) + Content(b)
  {
    if |a| > 0 {
      assert (a + b)[1..] == a[1..] + b;
      ContentAppend(a[1..], b);
    } else {
      assert a + b == b;
    }
  }

  lemma {:induction false} ContentBlank(s: string)
    requires IsBlank(s)
    ensures Content(s) == []
  {
    if |s| > 0 {
      ContentBlank(s[1..]);
    }
  }

  /** Trimming only removes whitespace. */
  lemma ContentTrim(s: string)
    ensures Content(Trim(s)) == Content(s)
  {
    var k := LeadingSpaces(s);
    var r := Trim(s);
    var e := k + |r|;
    var front, back := s[0..k], s[e..|s|];
    BlankSlice(s, 0, k);
    BlankSlice(s, e, |s|);
    assert s == front + (r + back);
    ContentBetweenBlanks(front, r, back);
  }

  lemma ContentBetweenBlanks(front: string, r: string, back: string)
    requires IsBlank(front) && IsBlank(back)
    ensures Content(front + (r + back)) == Content(r)
  {
    ContentBlank(front);
    ContentBlank(back);
    ContentAppend(front, r + back);
    ContentAppend(r, back);
  }

  /** Flushing the pending buffer moves its content, trimmed, to the end
      of the chunk list. */
  lemma Flush(chunks: seq<string>, current: string)
    ensures Content(Concat(chunks + [Trim(current)])) == Content(Concat(chunks)) + Content(current)
  {
    var t := Trim(current);
    ConcatAppend(chunks, [t]);
    assert Concat([t]) == t + Concat([]) == t;
    ContentAppend(Concat(chunks), t);
    ContentTrim(current);
  }

  lemma PrefixStep(ss: seq<string>, i: nat)
    requires i < |ss|
    ensures Content(Concat(ss[..i + 1])) == Content(Concat(ss[..i])) + Content(ss[i])
  {
    assert ss[..i + 1] == ss[..i] + [ss[i]];
    ConcatAppend(ss[..i], [ss[i]]);
    assert Concat([ss[i]]) == ss[i] + Concat([]) == ss[i];
    ContentAppend(Concat(ss[..i]), ss[i]);
  }

  lemma AppendPieces(chunks: seq<string>, pieces: seq<string>)
    ensures Content(Concat(chunks + pieces)) == Content(Concat(chunks)) + Content(Concat(pieces))
  {
    ConcatAppend(chunks, pieces);
    ContentAppend(Concat(chunks), Concat(pieces));
  }

  /** The `.{1,L}` pieces drop only line terminators, so they keep the
      sentence's content. */
  lemma {:induction false} HardSplitKeepsContent(s: string, maxLength: nat)
    requires maxLength >= 1
    ensures Content(Concat(HardSplit(s, maxLength))) == Content(s)
    decreases |s|
  {
    if |s| > 0 {
      if IsLineTerminator(s[0]) {
        HardSplitKeepsContent(s[1..], maxLength);
      } else {
        var e := RunEnd(s, 0, c => !IsLineTerminator(c));
        var n := if e < maxLength then e else maxLength;
        assert s == s[..n] + s[n..];
        HardSplitKeepsContent(s[n..], maxLength);
        ContentAppend(s[..n], s[n..]);
        ContentAppend(s[..n], Concat(HardSplit(s[n..], maxLength)));
      }
    }
  }

  /** A sentence that is not blank has a character that is not a line
      terminator, so `.{1,L}` finds at least one piece and the `|| [s]`
      fallback is never taken. */
  lemma {:induction false} HardSplitNonEmpty(s: string, maxLength: nat)
    requires maxLength >= 1 && !IsBlank(s)
    ensures |HardSplit(s, maxLength)| > 0
    decreases |s|
  {
    if IsLineTerminator(s[0]) {
      assert !IsBlank(s[1..]) by {
        var j :| 0 <= j < |s| && !IsSpace(s[j]);
        assert j > 0;
        assert s[1..][j - 1] == s[j];
      }
      HardSplitNonEmpty(s[1..], maxLength);
    }
  }

  lemma PiecesFit(s: string, maxLength: nat)
    requires maxLength >= 1 && !IsBlank(s)
    ensures forall k | 0 <= k < |Pieces(s, maxLength)| :: |Pieces(s, maxLength)[k]| <= maxLength
    ensures Content(Concat(Pieces(s, maxLength))) == Content(s)
  {
    HardSplitNonEmpty(s, maxLength);
    HardSplitKeepsContent(s, maxLength);
  }

  /** The sentence regular expression drops nothing but stray marks. */
  lemma {:induction false} SentencesKeepContent(t: string)
    ensures Content(Concat(Sentences(t))) == Content(t)
    ensures Content(Concat(SentenceList(t))) == Content(t)
    decreases |t|
  {
    if |t| > 0 {
      if IsMark(t[0]) {
        SentencesKeepContent(t[1..]);
      } else {
        var n := SentenceLength(t);
        assert t == t[..n] + t[n..];
        SentencesKeepContent(t[n..]);
        ContentAppend(t[..n], t[n..]);
        ContentAppend(t[..n], Concat(Sentences(t[n..])));
      }
    }
    if |Sentences(t)| == 0 {
      assert Concat([t]) == t + Concat([]) == t;
    }
  }
}
