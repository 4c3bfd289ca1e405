/** The per-article driver of the audio generator (`processFile`): the
    skip rule, the narration text, the single-chunk path, and the
    multi-chunk loop that retries each synthesis up to three times, joins
    the chunk audio and shifts each chunk's word cues by the measured
    length of the audio before it.

    Speech synthesis, the duration probe and the file system are inputs:
    for chunk `i`, `env(i)` says which synthesis attempts succeed, whether
    the chunk's audio file was then found, its duration in whole
    milliseconds, its bytes, and its subtitle JSON if that file was found. */
module Generation {
  import opened JsText
  import Markdown
  import Chunker
  import opened Vtt

  newtype byte = x: int | 0 <= x < 256

  /** How synthesis behaves for one chunk. */
  datatype ChunkEnv = ChunkEnv(
    outcomes: seq<bool>,      // attempt k succeeds iff k < |outcomes| && outcomes[k]
    tempExists: bool,         // the chunk's audio file is present after synthesis
    durationMs: nat,          // what the duration probe reports
    audio: seq<byte>,         // the chunk's audio bytes
    cues: Option<seq<Cue>>)   // the subtitle JSON, when its file exists

  /** The `.mp3` and `.vtt` of an article; `None` when the file is absent. */
  datatype Artifacts = Artifacts(audio: Option<seq<byte>>, vtt: Option<string>)

  const MaxAttempts := 3
  const ChunkLength := 2000
  /** What the template literal puts between the title and the body. */
  const TitleSeparator := ". \n\n  "

  predicate Succeeds(outcomes: seq<bool>, k: nat) {
    k < |outcomes| && outcomes[k]
  }

  // ---------------------------------------------------------------------
  // Retry

  /** Some attempt among the first three succeeds. */
  predicate SucceedsWithin3(outcomes: seq<bool>) {
    Succeeds(outcomes, 0) || Succeeds(outcomes, 1) || Succeeds(outcomes, 2)
  }

  /** Number of synthesis calls the retry loop makes for one chunk. */
  function AttemptCount(outcomes: seq<bool>): (n: nat)
    ensures 1 <= n <= MaxAttempts
  {
    if Succeeds(outcomes, 0) then 1 else if Succeeds(outcomes, 1) then 2 else 3
  }

  /** The `while (attempts < 3)` loop around `ttsPromise`: stops at the
      first success, rethrows after the third failure. */
  method SynthesizeWithRetry(outcomes: seq<bool>) returns (calls: nat, ok: bool)
    ensures 1 <= calls <= MaxAttempts
    ensures ok <==> SucceedsWithin3(outcomes)
    ensures ok ==> Succeeds(outcomes, calls - 1)
    ensures forall k | 0 <= k < calls - 1 :: !Succeeds(outcomes, k)
    ensures !ok ==> calls == MaxAttempts
    ensures calls == AttemptCount(outcomes)
  {
    var attempts := 0;
    calls := 0;
    ok := false;
    while attempts < MaxAttempts
      invariant 0 <= attempts <= MaxAttempts
      invariant calls == attempts
      invariant !ok
      invariant forall k | 0 <= k < attempts :: !Succeeds(outcomes, k)
      decreases MaxAttempts - attempts
    {
      calls := calls + 1;
      if Succeeds(outcomes, attempts) {
        ok := true;
        return;
      }
      attempts := attempts + 1;
    }
  }

  // ---------------------------------------------------------------------
  // Reference definitions of the multi-chunk loop over its first `i` chunks

  /** Every one of the first `i` chunks is synthesised within three tries. */
  predicate ChunksOk(env: nat -> ChunkEnv, i: nat) {
    forall j | 0 <= j < i :: SucceedsWithin3(env(j).outcomes)
  }

  /** Synthesis calls made over the first `i` chunks, stopping at the
      first chunk that fails. */
  function Calls(env: nat -> ChunkEnv, i: nat): nat {
    if i == 0 then 0
    else if ChunksOk(env, i - 1) then Calls(env, i - 1) + AttemptCount(env(i - 1).outcomes)
    else Calls(env, i - 1)
  }

  /** The time offset in force after the first `i` chunks: the sum of the
      durations of those whose audio file existed. */
  function Offset(env: nat -> ChunkEnv, i: nat): nat {
    if i == 0 then 0
    else Offset(env, i - 1) + (if env(i - 1).tempExists then env(i - 1).durationMs else 0)
  }

  /** The joined audio of the first `i` chunks. */
  function AudioOf(env: nat -> ChunkEnv, i: nat): seq<byte> {
    if i == 0 then []
    else AudioOf(env, i - 1) + (if env(i - 1).tempExists then env(i - 1).audio else [])
  }

  /** Cues moved later by `d` milliseconds. */
  function Shift(cues: seq<Cue>, d: nat): (r: seq<Cue>)
    ensures |r| == |cues|
    ensures forall k | 0 <= k < |r| ::
      r[k].part == cues[k].part && r[k].start == cues[k].start + d && r[k].end == cues[k].end + d
  {
    seq(|cues|, k requires 0 <= k < |cues| => Cue(cues[k].part, cues[k].start + d, cues[k].end + d))
  }

  /** What chunk `i` adds to the caption track. */
  function Contribution(env: nat -> ChunkEnv, i: nat): seq<Cue> {
    if env(i).tempExists && env(i).cues.Some? then Shift(env(i).cues.value, Offset(env, i)) else []
  }

  /** The caption track collected from the first `i` chunks. */
  function Track(env: nat -> ChunkEnv, i: nat): seq<Cue> {
    if i == 0 then [] else Track(env, i - 1) + Contribution(env, i - 1)
  }

  // ---------------------------------------------------------------------
  // The loop

  /** The `for` loop over the chunks of a multi-chunk article. */
  method RunChunks(env: nat -> ChunkEnv, n: nat)
    returns (ok: bool, calls: nat, audio: seq<byte>, track: seq<Cue>)
    ensures ok <==> ChunksOk(env, n)
    ensures ok ==> audio == AudioOf(env, n) && track == Track(env, n)
    ensures calls == Calls(env, n)
  {
    var i := 0;
    var offset := 0;
    ok := true;
    calls := 0;
    audio := [];
    track := [];
    while i < n && ok
      invariant 0 <= i <= n
      invariant ok ==> ChunksOk(env, i) && offset == Offset(env, i)
      invariant ok ==> audio == AudioOf(env, i) && track == Track(env, i)
      invariant !ok ==> !ChunksOk(env, i)
      invariant calls == Calls(env, i)
      decreases n - i, ok
    {
      var c := env(i);
      var tries, success := SynthesizeWithRetry(c.outcomes);
      calls := calls + tries;
      if !success {
        ok := false;
      } else if c.tempExists {
        audio := audio + c.audio;
        if c.cues.Some? {
          track := track + Shift(c.cues.value, offset);
        }
        offset := offset + c.durationMs;
      }
      i := i + 1;
    }
    if !ok {
      FailureIsFinal(env, i, n);
    }
  }

  /** Once a chunk has failed, later chunks change neither the verdict nor
      the call count. */
  lemma {:induction false} FailureIsFinal(env: nat -> ChunkEnv, i: nat, n: nat)
    requires i <= n && !ChunksOk(env, i)
    ensures !ChunksOk(env, n) && Calls(env, n) == Calls(env, i)
    decreases n - i
  {
    if i < n {
      FailureIsFinal(env, i + 1, n);
      assert !ChunksOk(env, i + 1);
    }
  }

  // ---------------------------------------------------------------------
  // Properties of the collected track

  /** The track only grows: what the first `i` chunks collected is a
      prefix of what the first `n` collect. */
  lemma {:induction false} TrackPrefix(env: nat -> ChunkEnv, i: nat, n: nat)
    requires i <= n
    ensures Track(env, i) <= Track(env, n)
    decreases n - i
  {
    if i < n {
      TrackPrefix(env, i, n - 1);
    }
  }

  /** Offsets never decrease from one chunk to a later one. */
  lemma {:induction false} OffsetMonotone(env: nat -> ChunkEnv, i: nat, n: nat)
    requires i <= n
    ensures Offset(env, i) <= Offset(env, n)
    decreases n - i
  {
    if i < n {
      OffsetMonotone(env, i, n - 1);
    }
  }

  /** Cue `k` of chunk `i` (audio present, subtitles found) sits in the
      final track right after the cues of the earlier chunks, moved later
      by the summed durations of the earlier chunks that had audio. */
  lemma ChunkCueInTrack(env: nat -> ChunkEnv, i: nat, n: nat, k: nat)
    requires i < n && env(i).tempExists && env(i).cues.Some? && k < |env(i).cues.value|
    ensures var at := |Track(env, i)| + k;
            var c := env(i).cues.value[k];
            at < |Track(env, n)|
            && Track(env, n)[at] == Cue(c.part, c.start + Offset(env, i), c.end + Offset(env, i))
  {
    TrackPrefix(env, i + 1, n);
    ChunkCueAfter(env, i, k);
  }

  lemma ChunkCueAfter(env: nat -> ChunkEnv, i: nat, k: nat)
    requires env(i).tempExists && env(i).cues.Some? && k < |env(i).cues.value|
    ensures |Track(env, i)| + k < |Track(env, i + 1)|
    ensures Track(env, i + 1)[|Track(env, i)| + k]
            == Cue(env(i).cues.value[k].part, env(i).cues.value[k].start + Offset(env, i),
                   env(i).cues.value[k].end + Offset(env, i))
  {
    var moved := Shift(env(i).cues.value, Offset(env, i));
    assert Track(env, i + 1) == Track(env, i) + moved;
    assert Track(env, i + 1)[|Track(env, i)| + k] == moved[k];
  }

  /** A chunk whose subtitles are missing adds no cue but its duration
      still moves the offset; a chunk whose audio file is missing adds
      nothing and moves nothing. */
  lemma MissingFiles(env: nat -> ChunkEnv, i: nat)
    ensures env(i).cues.None? ==> Track(env, i + 1) == Track(env, i)
    ensures env(i).tempExists ==> Offset(env, i + 1) == Offset(env, i) + env(i).durationMs
    ensures !env(i).tempExists ==>
      Track(env, i + 1) == Track(env, i) && Offset(env, i + 1) == Offset(env, i)
      && AudioOf(env, i + 1) == AudioOf(env, i)
  {
    assert Track(env, i + 1) == Track(env, i) + Contribution(env, i);
    assert AudioOf(env, i + 1) == AudioOf(env, i) + (if env(i).tempExists then env(i).audio else []);
  }

  /** Four chunks of 5 s (one cue), 3 s (subtitles missing), no audio file,
      and 4 s (one cue): the last chunk's cue is moved by 8 s. */
  lemma OffsetExample()
    ensures var env := (i: nat) =>
              if i == 0 then ChunkEnv([true], true, 5000, [], Some([Cue("Bonjour", 0, 400)]))
              else if i == 1 then ChunkEnv([false, true], true, 3000, [], None)
              else if i == 2 then ChunkEnv([true], false, 9999, [], None)
              else ChunkEnv([false, false, true], true, 4000, [], Some([Cue("monde", 100, 500)]));
            Track(env, 4) == [Cue("Bonjour", 0, 400), Cue("monde", 8100, 8500)]
            && Offset(env, 4) == 12000 && Calls(env, 4) == 7
  {
    var env := (i: nat) =>
      if i == 0 then ChunkEnv([true], true, 5000, [], Some([Cue("Bonjour", 0, 400)]))
      else if i == 1 then ChunkEnv([false, true], true, 3000, [], None)
      else if i == 2 then ChunkEnv([true], false, 9999, [], None)
      else ChunkEnv([false, false, true], true, 4000, [], Some([Cue("monde", 100, 500)]));
    assert Offset(env, 3) == 8000;
    assert Contribution(env, 0) == [Cue("Bonjour", 0, 400)];
    assert Contribution(env, 3) == [Cue("monde", 8100, 8500)];
    assert ChunksOk(env, 3);
    assert ChunksOk(env, 1);
    assert ChunksOk(env, 2);
  }

  // ---------------------------------------------------------------------
  // processFile

  /** The text handed to the chunker: the title, the separator the
      template literal holds, then the cleaned body. */
  function TextToRead(title: string, body: string): (r: string)
    ensures |r| == |title| + 6 + |Markdown.CleanMarkdown(body)|
    ensures r[..|title|] == title && r[|title|..|title| + 6] == TitleSeparator
    ensures r[|title| + 6..] == Markdown.CleanMarkdown(body)
  {
    title + TitleSeparator + Markdown.CleanMarkdown(body)
  }

  /** The generation run completes: one synthesis call that succeeds for a
      single chunk (no retry on that path), otherwise every chunk within
      three tries. */
  predicate Completes(env: nat -> ChunkEnv, n: nat) {
    if n == 1 then Succeeds(env(0).outcomes, 0) else ChunksOk(env, n)
  }

  /** The caption file after a completed multi-chunk run: written only
      when some cue was collected. */
  function TrackFile(before: Option<string>, track: seq<Cue>): Option<string> {
    if |track| > 0 then Some(JsonToVtt(track)) else before
  }

  /** `processFile(file, force)`. `before` is what exists on disk. */
  method ProcessFile(force: bool, before: Artifacts, title: string, body: string, env: nat -> ChunkEnv)
    returns (after: Artifacts, calls: nat, chunks: seq<string>)
    ensures !force && before.audio.Some? && before.vtt.Some? ==> after == before && calls == 0 && chunks == []
    ensures !(!force && before.audio.Some? && before.vtt.Some?) ==>
      && (forall k | 0 <= k < |chunks| :: |chunks[k]| <= ChunkLength)
      && Chunker.Content(Concat(chunks)) == Chunker.Content(TextToRead(title, body))
      && (!Completes(env, |chunks|) ==> after == Artifacts(None, None))
      && (Completes(env, |chunks|) && |chunks| == 1 ==>
            after == Artifacts(Some(env(0).audio), if env(0).cues.Some? then Some(JsonToVtt(env(0).cues.value)) else before.vtt))
      && (Completes(env, |chunks|) && |chunks| != 1 ==>
            after == Artifacts(Some(AudioOf(env, |chunks|)), TrackFile(before.vtt, Track(env, |chunks|))))
      && calls == if |chunks| == 1 then 1 else Calls(env, |chunks|)
  {
    if !force && before.audio.Some? && before.vtt.Some? {
      return before, 0, [];
    }
    var text := TextToRead(title, body);
    chunks := Chunker.ChunkText(text, ChunkLength);
    if |chunks| == 1 {
      calls := 1;
      var c := env(0);
      if !Succeeds(c.outcomes, 0) {
        after := Artifacts(None, None);
      } else if c.cues.Some? {
        after := Artifacts(Some(c.audio), Some(JsonToVtt(c.cues.value)));
      } else {
        after := Artifacts(Some(c.audio), before.vtt);
      }
    } else {
      var ok, audio, track;
      ok, calls, audio, track := RunChunks(env, |chunks|);
      if !ok {
        after := Artifacts(None, None);
      } else {
        after := Artifacts(Some(audio), TrackFile(before.vtt, track));
      }
    }
  }
}
