/** The caption track writer of the audio generator: `formatTime` renders
    a millisecond count through a UTC `Date` as `HH:MM:SS.mmm`, and
    `jsonToVtt` serialises the word cues produced by speech synthesis in
    the WebVTT file layout (W3C WebVTT, section 4.1): the `WEBVTT` header
    and a blank line, then per cue an identifier line, a
    `start --> end` timing line, the payload line and a blank line.

    A reader of that layout (`ParseVtt`) is the partner of the writer: it
    recovers every cue, with its times reduced modulo one day, since the
    hour field of a `Date` wraps at 24. */
module Vtt {
  import opened JsText

  /** One entry of the synthesiser's subtitle JSON: a word and its times
      in milliseconds. */
  datatype Cue = Cue(part: string, start: nat, end: nat)

  /** A cue as read back from a caption file. */
  datatype ParsedCue = ParsedCue(id: nat, start: nat, end: nat, text: string)

  const Header := "WEBVTT\n\n"
  const Arrow := " --> "
  const DayMs := 86_400_000
  /** Largest time value a JavaScript `Date` accepts. */
  const MaxDateMs := 8_640_000_000_000_000

  // ---------------------------------------------------------------------
  // Timestamps

  predicate NoNewline(s: string) {
    forall j | 0 <= j < |s| :: s[j] != '\n'
  }

  /** Decodes `HH:MM:SS.mmm` (fields in range) to milliseconds. */
  function ParseTime(s: string): (r: Option<nat>)
    ensures r.Some? ==> r.value < DayMs
  {
    if |s| == 12 && s[2] == ':' && s[5] == ':' && s[8] == '.'
       && AllDigits(s[0..2]) && AllDigits(s[3..5]) && AllDigits(s[6..8]) && AllDigits(s[9..12])
    then
      var h, m, sec, ms := DigitsValue(s[0..2]), DigitsValue(s[3..5]), DigitsValue(s[6..8]), DigitsValue(s[9..12]);
      if h < 24 && m < 60 && sec < 60 then
        DigitsValueBound(s[9..12]);
        Some(h * 3_600_000 + m * 60_000 + sec * 1000 + ms)
      else None
    else None
  }

  /** `formatTime(ms)`: the UTC hours, minutes, seconds and milliseconds of
      `new Date(ms)`, zero-padded to 2, 2, 2 and 3 digits.  Past the range
      of `Date` every field reads `NaN`. */
  function FormatTime(ms: nat): (r: string)
    ensures ms <= MaxDateMs ==> |r| == 12
    ensures ms > MaxDateMs ==> r == "NaN:NaN:NaN.NaN"
    ensures NoNewline(r)
  {
    if ms > MaxDateMs then "NaN:NaN:NaN.NaN"
    else
      var h, m, s, milli := (ms / 3_600_000) % 24, (ms / 60_000) % 60, (ms / 1000) % 60, ms % 1000;
      Field(h, 2) + ":" + Field(m, 2) + ":" + Field(s, 2) + "." + Field(milli, 3)
  }

  /** Reading a formatted time gives back the time of day it denotes. */
  lemma TimeRoundTrip(ms: nat)
    requires ms <= MaxDateMs
    ensures ParseTime(FormatTime(ms)) == Some(ms % DayMs)
  {
    var h, m, s, milli := (ms / 3_600_000) % 24, (ms / 60_000) % 60, (ms / 1000) % 60, ms % 1000;
    FormatTimeParses(ms, h, m, s, milli, FormatTime(ms));
  }

  /** `n.toString().padStart(width, '0')` for `n < 10^width`. */
  function Field(n: nat, width: nat): (r: string)
    requires width >= 1 && n < Pow10(width)
    ensures |r| == width && AllDigits(r) && DigitsValue(r) == n
  {
    NatToStringLength(n, width);
    PaddedValue(n, width);
    PadZeros(NatToString(n), width)
  }

  lemma FormatTimeParses(ms: nat, h: nat, m: nat, s: nat, milli: nat, r: string)
    requires h == (ms / 3_600_000) % 24 && m == (ms / 60_000) % 60
    requires s == (ms / 1000) % 60 && milli == ms % 1000
    requires r == Field(h, 2) + ":" + Field(m, 2) + ":" + Field(s, 2) + "." + Field(milli, 3)
    ensures |r| == 12 && ParseTime(r) == Some(ms % DayMs)
  {
    assert r[0..2] == Field(h, 2);
    assert r[3..5] == Field(m, 2);
    assert r[6..8] == Field(s, 2);
    assert r[9..12] == Field(milli, 3);
    TimeFieldsSum(ms);
  }

  lemma TimeFieldsSum(ms: nat)
    ensures ((ms / 3_600_000) % 24) * 3_600_000 + ((ms / 60_000) % 60) * 60_000
            + ((ms / 1000) % 60) * 1000 + ms % 1000 == ms % DayMs
  {
    var q := ms / 1000;
    assert ms == q * 1000 + ms % 1000;
    assert ms / 60_000 == q / 60;
    assert ms / 3_600_000 == q / 3600;
    var sec := q % 60;
    var qm := q / 60;
    assert q / 3600 == qm / 60;
    var min := qm % 60;
    var hrs := qm / 60;
    assert q == hrs * 3600 + min * 60 + sec;
    assert ms == (hrs * 3600 + min * 60 + sec) * 1000 + ms % 1000;
    assert ms == hrs * 3_600_000 + (min * 60_000 + sec * 1000 + ms % 1000);
    var below := min * 60_000 + sec * 1000 + ms % 1000;
    assert below < 3_600_000;
    DayRemainder(hrs, below);
  }

  lemma DayRemainder(hrs: nat, below: nat)
    requires below < 3_600_000
    ensures (hrs * 3_600_000 + below) % DayMs == (hrs % 24) * 3_600_000 + below
  {
    var d := hrs / 24;
    assert hrs * 3_600_000 + below == d * DayMs + ((hrs % 24) * 3_600_000 + below);
  }

  // ---------------------------------------------------------------------
  // Writer

  /** `a`, a line break, then `b`. */
  function Line(a: string, b: string): string {
    a + ("\n" + b)
  }

  /** The timing line of a cue, without its line break. */
  function Timing(cue: Cue): string {
    FormatTime(cue.start) + Arrow + FormatTime(cue.end)
  }

  /** The block written for the cue at position `index` (identifier line,
      timing line, payload line, blank line), followed by `rest`. */
  function BlockThen(index: nat, cue: Cue, rest: string): string {
    Line(NatToString(index + 1), Line(Timing(cue), Line(cue.part, Line("", rest))))
  }

  function BlocksFrom(cues: seq<Cue>, index: nat): string
    decreases |cues|
  {
    if |cues| == 0 then [] else BlockThen(index, cues[0], BlocksFrom(cues[1..], index + 1))
  }

  /** `jsonToVtt(subtitles)`. */
  function JsonToVtt(cues: seq<Cue>): (r: string)
    ensures Header <= r
    ensures |cues| == 0 ==> r == Header
  {
    Header + BlocksFrom(cues, 0)
  }

  // ---------------------------------------------------------------------
  // Reader

  /** Splits `t` at every line break; there is always at least one line. */
  function Split(t: string): (r: seq<string>)
    ensures |r| > 0
    decreases |t|
  {
    match IndexOf(t, '\n', 0)
    case None => [t]
    case Some(i) => [t[..i]] + Split(t[i + 1..])
  }

  /** Reads a timing line `HH:MM:SS.mmm --> HH:MM:SS.mmm`. */
  function ParseTiming(line: string): Option<(nat, nat)> {
    if |line| == 29 && line[12..17] == Arrow then
      match (ParseTime(line[..12]), ParseTime(line[17..]))
      case (Some(start), Some(end)) => Some((start, end))
      case _ => None
    else None
  }

  /** Reads groups of four lines (identifier, timing, payload, blank) up to
      the empty line that ends the file. */
  function ParseLines(ls: seq<string>): Option<seq<ParsedCue>>
    decreases |ls|
  {
    if ls == [""] then Some([])
    else if |ls| >= 4 && ls[0] != [] && AllDigits(ls[0]) && ls[3] == [] then
      match ParseTiming(ls[1])
      case None => None
      case Some(times) =>
        match ParseLines(ls[4..])
        case None => None
        case Some(rest) => Some([ParsedCue(DigitsValue(ls[0]), times.0, times.1, ls[2])] + rest)
    else None
  }

  /** Reads a caption file: the header line and a blank line, then the
      cue blocks. */
  function ParseVtt(s: string): Option<seq<ParsedCue>> {
    var ls := Split(s);
    if |ls| >= 2 && ls[0] == "WEBVTT" && ls[1] == [] then ParseLines(ls[2..]) else None
  }

  /** What reading back the blocks written from position `index` yields. */
  function ReadBack(cues: seq<Cue>, index: nat): (r: seq<ParsedCue>)
    ensures |r| == |cues|
    decreases |cues|
  {
    if |cues| == 0 then []
    else [ParsedCue(index + 1, cues[0].start % DayMs, cues[0].end % DayMs, cues[0].part)]
         + ReadBack(cues[1..], index + 1)
  }

  predicate Serialisable(cues: seq<Cue>) {
    forall k | 0 <= k < |cues| ::
      cues[k].start <= MaxDateMs && cues[k].end <= MaxDateMs && NoNewline(cues[k].part)
  }

  /** Round trip: reading a written caption track gives back every cue in
      order, numbered from 1, with its times modulo one day. */
  lemma RoundTrip(cues: seq<Cue>)
    requires Serialisable(cues)
    ensures ParseVtt(JsonToVtt(cues)) == Some(ReadBack(cues, 0))
  {
    var b := BlocksFrom(cues, 0);
    HeaderLines(b);
    BlocksRoundTrip(cues, 0);
  }

  lemma HeaderLines(b: string)
    ensures var ls := Split(Header + b);
            |ls| >= 2 && ls[0] == "WEBVTT" && ls[1] == [] && ls[2..] == Split(b)
  {
    var xs := ["WEBVTT", ""];
    assert LinesThen(xs[1..], b) == Line("", b);
    assert Header + b == LinesThen(xs, b);
    SplitLinesThen(xs, b);
  }

  lemma {:induction false} BlocksRoundTrip(cues: seq<Cue>, index: nat)
    requires Serialisable(cues)
    ensures ParseLines(Split(BlocksFrom(cues, index))) == Some(ReadBack(cues, index))
    decreases |cues|
  {
    if |cues| == 0 {
      assert IndexOf([], '\n', 0) == None;
    } else {
      var c := cues[0];
      var rest := BlocksFrom(cues[1..], index + 1);
      assert Serialisable(cues[1..]) by {
        forall k | 0 <= k < |cues[1..]| ensures cues[1..][k] == cues[k + 1] { }
      }
      BlocksRoundTrip(cues[1..], index + 1);
      var ls := BlockLines(index, c, rest);
      TimingParses(c);
      DigitsValueOfNatToString(index + 1);
      assert ls[4..] == Split(rest);
    }
  }

  /** A line with no break in it is split off whole. */
  lemma SplitLine(a: string, b: string)
    requires NoNewline(a)
    ensures Split(Line(a, b)) == [a] + Split(b)
  {
    var t := Line(a, b);
    assert t[|a|] == '\n';
    assert forall j | 0 <= j < |a| :: t[j] == a[j];
    assert IndexOf(t, '\n', 0) == Some(|a|);
    assert t[..|a|] == a;
    assert t[|a| + 1..] == b;
  }

  /** Lines `ls`, each followed by a line break, in front of `rest`. */
  function LinesThen(ls: seq<string>, rest: string): string {
    if |ls| == 0 then rest else Line(ls[0], LinesThen(ls[1..], rest))
  }

  /** Lines with no break in them split off one by one. */
  lemma {:induction false} SplitLinesThen(ls: seq<string>, rest: string)
    requires forall k | 0 <= k < |ls| :: NoNewline(ls[k])
    ensures Split(LinesThen(ls, rest)) == ls + Split(rest)
  {
    if |ls| > 0 {
      var t := Split(rest);
      SplitLinesThen(ls[1..], rest);
      SplitFirstLine(ls, rest);
      ConsAppend(ls, t);
    }
  }

  lemma ConsAppend(ls: seq<string>, t: seq<string>)
    requires |ls| > 0
    ensures [ls[0]] + (ls[1..] + t) == ls + t
  {
    assert ls == [ls[0]] + ls[1..];
  }

  lemma SplitFirstLine(ls: seq<string>, rest: string)
    requires |ls| > 0 && NoNewline(ls[0])
    ensures Split(LinesThen(ls, rest)) == [ls[0]] + Split(LinesThen(ls[1..], rest))
  {
    SplitLine(ls[0], LinesThen(ls[1..], rest));
  }

  /** Four lines in front of `rest` split off one by one. */
  lemma SplitFour(a: string, b: string, c: string, rest: string) returns (ls: seq<string>)
    requires NoNewline(a) && NoNewline(b) && NoNewline(c)
    ensures ls == Split(Line(a, Line(b, Line(c, Line("", rest)))))
    ensures |ls| >= 4 && ls[0] == a && ls[1] == b && ls[2] == c && ls[3] == []
    ensures ls[4..] == Split(rest)
  {
    var xs := [a, b, c, ""];
    assert LinesThen(xs[3..], rest) == Line("", rest);
    assert LinesThen(xs[2..], rest) == Line(c, Line("", rest));
    assert LinesThen(xs[1..], rest) == Line(b, Line(c, Line("", rest)));
    assert LinesThen(xs, rest) == Line(a, Line(b, Line(c, Line("", rest))));
    SplitLinesThen(xs, rest);
    ls := Split(LinesThen(xs, rest));
    assert ls[4..] == Split(rest);
  }

  /** The lines of one written block. */
  lemma BlockLines(index: nat, c: Cue, rest: string) returns (ls: seq<string>)
    requires NoNewline(c.part)
    ensures ls == Split(BlockThen(index, c, rest))
    ensures |ls| >= 4 && ls[0] == NatToString(index + 1) && ls[1] == Timing(c)
    ensures ls[2] == c.part && ls[3] == [] && ls[4..] == Split(rest)
  {
    var id := NatToString(index + 1);
    HeadLinesUnbroken(index, c);
    ls := SplitFour(id, Timing(c), c.part, rest);
  }

  /** The identifier and timing lines hold no line break. */
  lemma HeadLinesUnbroken(index: nat, c: Cue)
    ensures NoNewline(NatToString(index + 1)) && NoNewline(Timing(c))
  {
    var id := NatToString(index + 1);
    assert forall j | 0 <= j < |id| :: IsDigit(id[j]);
  }

  lemma TimingParses(cue: Cue)
    requires cue.start <= MaxDateMs && cue.end <= MaxDateMs
    ensures ParseTiming(Timing(cue)) == Some((cue.start % DayMs, cue.end % DayMs))
  {
    var st, en := FormatTime(cue.start), FormatTime(cue.end);
    TimeRoundTrip(cue.start);
    TimeRoundTrip(cue.end);
    var line := Timing(cue);
    assert line[..12] == st;
    assert line[12..17] == Arrow;
    assert line[17..] == en;
  }
}
