/** The narration text normaliser of the audio generator (`cleanMarkdown`):
    an ordered chain of global regular-expression rewrites over the
    article's Markdown body, followed by a character filter and a trim.

    Each regular expression is modelled by a matcher that decides, at the
    current position, whether the expression matches there and, if so, how
    many characters it consumes and what it is replaced with.  `ReplaceAll`
    then performs JavaScript's leftmost, non-overlapping global
    replacement.  The multiline anchors `^` and `$` look at the original
    input, so the scan carries whether the current position starts a line. */
module Markdown {
  import opened JsText

  // ---------------------------------------------------------------------
  // Unicode general categories used by the final character filter

  predicate IsLetter(c: char) {
    var n := c as int;
    || (0x41 <= n <= 0x5A) || (0x61 <= n <= 0x7A)
    || n == 0xAA || n == 0xB5 || n == 0xBA
    || (0xC0 <= n <= 0xD6) || (0xD8 <= n <= 0xF6) || (0xF8 <= n <= 0x24F)
  }

  predicate IsNumber(c: char) {
    var n := c as int;
    (0x30 <= n <= 0x39) || n == 0xB2 || n == 0xB3 || n == 0xB9 || (0xBC <= n <= 0xBE)
  }

  predicate IsPunctuation(c: char) {
    var n := c as int;
    || (0x21 <= n <= 0x23) || (0x25 <= n <= 0x2A) || (0x2C <= n <= 0x2F)
    || n == 0x3A || n == 0x3B || n == 0x3F || n == 0x40
    || (0x5B <= n <= 0x5D) || n == 0x5F || n == 0x7B || n == 0x7D
    || n == 0xA1 || n == 0xA7 || n == 0xAB || n == 0xB6 || n == 0xB7 || n == 0xBB || n == 0xBF
    || (0x2010 <= n <= 0x2027) || (0x2030 <= n <= 0x2043)
    || (0x2045 <= n <= 0x2051) || (0x2053 <= n <= 0x205E)
  }

  predicate IsSeparator(c: char) {
    var n := c as int;
    || n == 0x20 || n == 0xA0 || n == 0x1680 || (0x2000 <= n <= 0x200A)
    || n == 0x2028 || n == 0x2029 || n == 0x202F || n == 0x205F || n == 0x3000
  }

  /** The characters `[\p{L}\p{N}\p{P}\p{Z}\n]` that survive the filter. */
  predicate IsSafe(c: char) {
    IsLetter(c) || IsNumber(c) || IsPunctuation(c) || IsSeparator(c) || c == '\n'
  }

  // ---------------------------------------------------------------------
  // Scanning primitives

  /** First index at or after `from` where `pat` occurs. */
  function Find(t: string, pat: string, from: nat): (r: Option<nat>)
    ensures r.Some? ==> from <= r.value && r.value + |pat| <= |t| && t[r.value..r.value + |pat|] == pat
    decreases |t| - from
  {
    if from + |pat| > |t| then None
    else if t[from..from + |pat|] == pat then Some(from)
    else Find(t, pat, from + 1)
  }

  // ---------------------------------------------------------------------
  // The rewrite rules, in the order they are applied

  datatype Rule =
    | HtmlComment       // <!--[\s\S]*?-->            -> ""
    | CodeFence         // ```[\s\S]*?```             -> ""
    | InlineCode        // `([^`]+)`                  -> $1
    | ImageParen        // !\[([^\]]*)(\([^)]+\))     -> ""
    | AttributedLink    // \{([^\}]+)\}\[[^\]]+\]\([^)]+\) -> $1
    | Link              // \[([^\]]+)\]\([^\)]+\)     -> $1
    | BareUrl           // (https?:\/\/[^\s]+)        -> ""
    | HtmlTag           // <[^>]+>                    -> ""
    | CalloutLine       // ^[ \t]*[-*+]\s*[\*_]*(Discussion HN|Article source)[\*_]*.*$ (m) -> ""
    | HeadingMarker     // ^#+\s+ (m)                 -> ""
    | ListMarker        // ^[-*+]\s+ (m)              -> ""
    | StrongStars       // \*\*([^*]+)\*\*            -> $1
    | EmphasisStar      // \*([^*]+)\*                -> $1
    | StrongUnderscores // __([^_]+)__                -> $1
    | EmphasisUnderscore// _([^_]+)_                  -> $1
    | BlankLines        // \n{3,}                     -> "\n\n"

  const Rules: seq<Rule> := [
    HtmlComment, CodeFence, InlineCode, ImageParen, AttributedLink, Link, BareUrl, HtmlTag,
    CalloutLine, HeadingMarker, ListMarker, StrongStars, EmphasisStar, StrongUnderscores,
    EmphasisUnderscore, BlankLines
  ]

  /** A match at the current position: the number of characters consumed
      and the replacement text. */
  datatype Hit = Hit(len: nat, repl: string)

  predicate ValidHit(h: Hit, t: string) {
    0 < h.len <= |t| && |h.repl| <= h.len
  }

  /** `open[\s\S]*?close`: the shortest stretch from `open` to the next
      `close`, removed. */
  function MatchDelimited(t: string, open: string, close: string): (r: Option<Hit>)
    requires |open| > 0
    ensures r.Some? ==> ValidHit(r.value, t) && open <= t
  {
    if open <= t then
      match Find(t, close, |open|)
      case Some(c) => Some(Hit(c + |close|, []))
      case None => None
    else None
  }

  /** No character of `t[lo..hi]` is `d`: the class `[^d]`. */
  predicate FreeOf(t: string, d: char, lo: int, hi: int) {
    forall j | lo <= j < hi && 0 <= j < |t| :: t[j] != d
  }

  /** `d([^d]+)d` with a one-character delimiter, replaced by the inner text.
      The greedy `[^d]+` runs to the first delimiter after the opening one,
      so the expression matches exactly when that delimiter is at least two
      characters further on. */
  function MatchWrapped(t: string, d: char): (r: Option<Hit>)
    ensures r.Some? ==> ValidHit(r.value, t) && r.value.len >= 3 && r.value.repl == t[1..r.value.len - 1]
    ensures r.Some? ==> t[0] == d && t[r.value.len - 1] == d
    ensures r.Some? ==> FreeOf(t, d, 1, r.value.len - 1)
    ensures forall c | 2 <= c < |t| ::
              t[0] == d && t[c] == d && FreeOf(t, d, 1, c) ==> r == Some(Hit(c + 1, t[1..c]))
  {
    if |t| > 0 && t[0] == d then
      match IndexOf(t, d, 1)
      case Some(c) => if c >= 2 then Some(Hit(c + 1, t[1..c])) else None
      case None => None
    else None
  }

  /** `dd([^d]+)dd`, replaced by the inner text.  The inner run stops at
      the first delimiter after the opening pair, which must start the
      closing pair. */
  function MatchDoubleWrapped(t: string, d: char): (r: Option<Hit>)
    ensures r.Some? ==> ValidHit(r.value, t) && r.value.len >= 5 && r.value.repl == t[2..r.value.len - 2]
    ensures r.Some? ==> t[0] == d && t[1] == d && t[r.value.len - 2] == d && t[r.value.len - 1] == d
    ensures r.Some? ==> FreeOf(t, d, 2, r.value.len - 2)
    ensures forall c | 3 <= c && c + 1 < |t| ::
              t[0] == d && t[1] == d && t[c] == d && t[c + 1] == d && FreeOf(t, d, 2, c)
              ==> r == Some(Hit(c + 2, t[2..c]))
  {
    if |t| > 1 && t[0] == d && t[1] == d then
      match IndexOf(t, d, 2)
      case Some(c) =>
        if c >= 3 && c + 1 < |t| && t[c + 1] == d then Some(Hit(c + 2, t[2..c])) else None
      case None => None
    else None
  }

  /** `!\[([^\]]*)(\([^)]+\))`.  The bracketed text may not contain `]`,
      and the parenthesised part must follow it directly, so a complete
      image `![alt](src)` does NOT match; only an unclosed `![alt(src)`
      does.  The greedy `[^\]]*` makes the LAST suitable `(` before the
      first `]` win. */
  function MatchImageParen(t: string): (r: Option<Hit>)
    ensures r.Some? ==> ValidHit(r.value, t)
  {
    if |t| >= 2 && t[0] == '!' && t[1] == '[' then
      var e := match IndexOf(t, ']', 2) case Some(b) => b case None => |t|;
      LastParenGroup(t, 2, e)
    else None
  }

  /** Searches `p` downwards from `hi - 1` to `lo` for `\([^)]+\)` at `p`. */
  function LastParenGroup(t: string, lo: nat, hi: nat): (r: Option<Hit>)
    requires 1 <= lo <= hi <= |t|
    ensures r.Some? ==> ValidHit(r.value, t)
    decreases hi
  {
    if hi == lo then None
    else
      var p := hi - 1;
      match (if t[p] == '(' then IndexOf(t, ')', p + 1) else None)
      case Some(q) => if q >= p + 2 then Some(Hit(q + 1, [])) else LastParenGroup(t, lo, p)
      case None => LastParenGroup(t, lo, p)
  }

  /** `\{([^\}]+)\}\[[^\]]+\]\([^)]+\)`, replaced by the braced text. */
  function MatchAttributedLink(t: string): (r: Option<Hit>)
    ensures r.Some? ==> ValidHit(r.value, t)
  {
    if |t| > 0 && t[0] == '{' then
      match IndexOf(t, '}', 1)
      case None => None
      case Some(a) =>
        if a < 2 || a + 1 >= |t| || t[a + 1] != '[' then None
        else match IndexOf(t, ']', a + 2)
          case None => None
          case Some(b) =>
            if b < a + 3 || b + 1 >= |t| || t[b + 1] != '(' then None
            else match IndexOf(t, ')', b + 2)
              case None => None
              case Some(c) => if c < b + 3 then None else Some(Hit(c + 1, t[1..a]))
    else None
  }

  /** `\[([^\]]+)\]\([^\)]+\)`, replaced by the link text. */
  function MatchLink(t: string): (r: Option<Hit>)
    ensures r.Some? ==> ValidHit(r.value, t) && t[0] == '['
  {
    if |t| > 0 && t[0] == '[' then
      match IndexOf(t, ']', 1)
      case None => None
      case Some(a) =>
        if a < 2 || a + 1 >= |t| || t[a + 1] != '(' then None
        else match IndexOf(t, ')', a + 2)
          case None => None
          case Some(c) => if c < a + 3 then None else Some(Hit(c + 1, t[1..a]))
    else None
  }

  /** `https?:\/\/[^\s]+`, removed. */
  function MatchUrl(t: string): (r: Option<Hit>)
    ensures r.Some? ==> ValidHit(r.value, t)
  {
    var k := if "https://" <= t then 8 else if "http://" <= t then 7 else 0;
    if k == 0 then None
    else
      var e := RunEnd(t, k, c => !IsSpace(c));
      if e > k then Some(Hit(e, [])) else None
  }

  /** `^[ \t]*[-*+]\s*[\*_]*(Discussion HN|Article source)[\*_]*.*$`, the
      "discussion" and "source" callout list items, removed up to the end
      of their line.  `\s*` may cross line breaks. */
  function MatchCallout(t: string): (r: Option<Hit>)
    ensures r.Some? ==> ValidHit(r.value, t)
  {
    var a := RunEnd(t, 0, c => c == ' ' || c == '\t');
    if a < |t| && (t[a] == '-' || t[a] == '*' || t[a] == '+') then
      var b := RunEnd(t, a + 1, IsSpace);
      var c := RunEnd(t, b, ch => ch == '*' || ch == '_');
      var lit := if "Discussion HN" <= t[c..] then 13 else if "Article source" <= t[c..] then 14 else 0;
      if lit == 0 then None
      else Some(Hit(RunEnd(t, c + lit, ch => !IsLineTerminator(ch)), []))
    else None
  }

  /** `^#+\s+`, removed. */
  function MatchHeading(t: string): (r: Option<Hit>)
    ensures r.Some? ==> ValidHit(r.value, t)
  {
    var a := RunEnd(t, 0, c => c == '#');
    if a == 0 then None
    else
      var b := RunEnd(t, a, IsSpace);
      if b > a then Some(Hit(b, [])) else None
  }

  /** `^[-*+]\s+`, removed. */
  function MatchListMarker(t: string): (r: Option<Hit>)
    ensures r.Some? ==> ValidHit(r.value, t)
  {
    if |t| > 0 && (t[0] == '-' || t[0] == '*' || t[0] == '+') then
      var b := RunEnd(t, 1, IsSpace);
      if b > 1 then Some(Hit(b, [])) else None
    else None
  }

  /** `\n{3,}`, replaced by one blank line. */
  function MatchBlankLines(t: string): (r: Option<Hit>)
    ensures r.Some? ==> ValidHit(r.value, t)
    ensures r.Some? <==> LeadingNewlines(t) >= 3
    ensures r.Some? ==> r.value == Hit(LeadingNewlines(t), "\n\n")
  {
    var a := LeadingNewlines(t);
    if a >= 3 then Some(Hit(a, "\n\n")) else None
  }

  function LeadingNewlines(t: string): (n: nat)
    ensures n <= |t|
    ensures forall j | 0 <= j < n :: t[j] == '\n'
    ensures n == |t| || t[n] != '\n'
  {
    if |t| == 0 || t[0] != '\n' then 0 else 1 + LeadingNewlines(t[1..])
  }

  /** Does `rule` match at the start of `t`?  `lineStart` tells whether
      this position starts a line of the input (for `^` under the `m`
      flag). */
  function Match(rule: Rule, t: string, lineStart: bool): (r: Option<Hit>)
    ensures r.Some? ==> ValidHit(r.value, t)
  {
    match rule
    case HtmlComment => MatchDelimited(t, "<!--", "-->")
    case CodeFence => MatchDelimited(t, "```", "```")
    case InlineCode => MatchWrapped(t, '`')
    case ImageParen => MatchImageParen(t)
    case AttributedLink => MatchAttributedLink(t)
    case Link => MatchLink(t)
    case BareUrl => MatchUrl(t)
    case HtmlTag =>
      if |t| > 0 && t[0] == '<' then
        match IndexOf(t, '>', 1)
        case Some(c) => if c >= 2 then Some(Hit(c + 1, [])) else None
        case None => None
      else None
    case CalloutLine => if lineStart then MatchCallout(t) else None
    case HeadingMarker => if lineStart then MatchHeading(t) else None
    case ListMarker => if lineStart then MatchListMarker(t) else None
    case StrongStars => MatchDoubleWrapped(t, '*')
    case EmphasisStar => MatchWrapped(t, '*')
    case StrongUnderscores => MatchDoubleWrapped(t, '_')
    case EmphasisUnderscore => MatchWrapped(t, '_')
    case BlankLines => MatchBlankLines(t)
  }

  /** `String.prototype.replace` with a global regular expression: scan
      left to right, replace each match, resume after it; characters where
      no match starts are kept. */
  function ReplaceAll(rule: Rule, s: string, lineStart: bool): (r: string)
    ensures |r| <= |s|
    decreases |s|
  {
    if |s| == 0 then []
    else match Match(rule, s, lineStart)
      case Some(h) => h.repl + ReplaceAll(rule, s[h.len..], IsLineTerminator(s[h.len - 1]))
      case None => [s[0]] + ReplaceAll(rule, s[1..], IsLineTerminator(s[0]))
  }

  /** Applies `rules` in order, each to the whole result of the previous. */
  function ApplyRules(rules: seq<Rule>, s: string): (r: string)
    ensures |r| <= |s|
  {
    if |rules| == 0 then s else ApplyRules(rules[1..], ReplaceAll(rules[0], s, true))
  }

  /** `[^\p{L}\p{N}\p{P}\p{Z}\n]` (global, Unicode) replaced by a space. */
  function Sanitize(s: string): (r: string)
    ensures |r| == |s|
    ensures forall i | 0 <= i < |r| :: IsSafe(r[i])
    ensures forall i | 0 <= i < |s| :: IsSafe(s[i]) ==> r[i] == s[i]
    ensures forall i | 0 <= i < |r| :: r[i] == '\n' ==> s[i] == '\n'
  {
    seq(|s|, i requires 0 <= i < |s| => if IsSafe(s[i]) then s[i] else ' ')
  }

  predicate NoTripleNewline(s: string) {
    forall i | 0 <= i < |s| - 2 :: !(s[i] == '\n' && s[i + 1] == '\n' && s[i + 2] == '\n')
  }

  /** `cleanMarkdown`: the rewrite chain, the character filter, the trim. */
  function CleanMarkdown(markdown: string): (r: string)
    ensures |r| <= |markdown|
    ensures r == [] || (!IsSpace(r[0]) && !IsSpace(r[|r| - 1]))
    ensures forall i | 0 <= i < |r| :: IsSafe(r[i])
    ensures NoTripleNewline(r)
  {
    var rewritten := ApplyRules(Rules, markdown);
    var filtered := Sanitize(rewritten);
    CollapsedHasNoTriple(Rules, markdown);
    SanitizeKeepsNoTriple(rewritten);
    TrimKeepsNoTriple(filtered);
    TrimKeepsSafe(filtered);
    Trim(filtered)
  }

  /** Trimming keeps only characters the sanitizer let through. */
  lemma TrimKeepsSafe(f: string)
    requires forall i | 0 <= i < |f| :: IsSafe(f[i])
    ensures forall i | 0 <= i < |Trim(f)| :: IsSafe(Trim(f)[i])
  {
    var k := LeadingSpaces(f);
    var r := Trim(f);
    forall i | 0 <= i < |r| ensures IsSafe(r[i]) {
      assert r[i] == f[k + i];
    }
  }

  // ---------------------------------------------------------------------
  // No three consecutive newlines

  /** After the `\n{3,}` rewrite no three newlines are adjacent; a leading
      run of newlines is kept when shorter than three and cut to two
      otherwise. */
  lemma {:induction false} BlankLinesCollapse(s: string, lineStart: bool)
    ensures NoTripleNewline(ReplaceAll(BlankLines, s, lineStart))
    ensures LeadingNewlines(ReplaceAll(BlankLines, s, lineStart))
            == if LeadingNewlines(s) >= 3 then 2 else LeadingNewlines(s)
    decreases |s|
  {
    if |s| > 0 {
      var a := LeadingNewlines(s);
      if a >= 3 {
        BlankLinesCollapse(s[a..], IsLineTerminator(s[a - 1]));
        CollapseRun(s, lineStart);
      } else {
        BlankLinesCollapse(s[1..], IsLineTerminator(s[0]));
        CollapseKeep(s, lineStart);
      }
    }
  }

  /** A run of three or more line breaks becomes two, and what follows it
      starts with no line break. */
  lemma CollapseRun(s: string, lineStart: bool)
    requires LeadingNewlines(s) >= 3
    requires var a := LeadingNewlines(s);
             var tail := ReplaceAll(BlankLines, s[a..], IsLineTerminator(s[a - 1]));
             NoTripleNewline(tail)
             && LeadingNewlines(tail) == if LeadingNewlines(s[a..]) >= 3 then 2 else LeadingNewlines(s[a..])
    ensures NoTripleNewline(ReplaceAll(BlankLines, s, lineStart))
    ensures LeadingNewlines(ReplaceAll(BlankLines, s, lineStart)) == 2
  {
    var a := LeadingNewlines(s);
    var rest := s[a..];
    var tail := ReplaceAll(BlankLines, rest, IsLineTerminator(s[a - 1]));
    assert ReplaceAll(BlankLines, s, lineStart) == "\n\n" + tail;
    assert LeadingNewlines(rest) == 0;
    assert tail == [] || tail[0] != '\n';
    LeadingNewlinesPrefix("\n\n", tail);
    NoTriplePrefix("\n\n", tail);
  }

  /** Fewer than three leading line breaks: the first character is kept. */
  lemma CollapseKeep(s: string, lineStart: bool)
    requires |s| > 0 && LeadingNewlines(s) < 3
    requires var tail := ReplaceAll(BlankLines, s[1..], IsLineTerminator(s[0]));
             NoTripleNewline(tail)
             && LeadingNewlines(tail) == if LeadingNewlines(s[1..]) >= 3 then 2 else LeadingNewlines(s[1..])
    ensures NoTripleNewline(ReplaceAll(BlankLines, s, lineStart))
    ensures LeadingNewlines(ReplaceAll(BlankLines, s, lineStart)) == LeadingNewlines(s)
  {
    var r := ReplaceAll(BlankLines, s, lineStart);
    var tail := ReplaceAll(BlankLines, s[1..], IsLineTerminator(s[0]));
    CollapseKeepStep(s, lineStart);
    if s[0] == '\n' {
      assert LeadingNewlines(s) == 1 + LeadingNewlines(s[1..]);
      LeadingNewlinesPrefix([s[0]], tail);
    } else {
      assert r[0] != '\n';
    }
    NoTriplePrefix([s[0]], tail);
  }

  lemma CollapseKeepStep(s: string, lineStart: bool)
    requires |s| > 0 && LeadingNewlines(s) < 3
    ensures ReplaceAll(BlankLines, s, lineStart)
            == [s[0]] + ReplaceAll(BlankLines, s[1..], IsLineTerminator(s[0]))
  {
    assert MatchBlankLines(s).None?;
    assert Match(BlankLines, s, lineStart).None?;
  }

  lemma {:induction false} LeadingNewlinesPrefix(p: string, t: string)
    requires forall j | 0 <= j < |p| :: p[j] == '\n'
    ensures LeadingNewlines(p + t) == |p| + LeadingNewlines(t)
    decreases |p|
  {
    if |p| > 0 {
      assert (p + t)[1..] == p[1..] + t;
      LeadingNewlinesPrefix(p[1..], t);
    } else {
      assert p + t == t;
    }
  }

  lemma NoTriplePrefix(p: string, t: string)
    requires |p| <= 2 && NoTripleNewline(t)
    requires |p| == 1 || forall j | 0 <= j < |p| :: p[j] == '\n'
    requires LeadingNewlines(p + t) <= 2
    ensures NoTripleNewline(p + t)
  {
    var s := p + t;
    forall i | 0 <= i < |s| - 2
      ensures !(s[i] == '\n' && s[i + 1] == '\n' && s[i + 2] == '\n')
    {
      if i >= |p| {
        assert s[i] == t[i - |p|] && s[i + 1] == t[i - |p| + 1] && s[i + 2] == t[i - |p| + 2];
      } else if s[i] == '\n' && s[i + 1] == '\n' && s[i + 2] == '\n' {
        assert s[0] == '\n' && s[1] == '\n' && s[2] == '\n';
        LeadingNewlinesAtLeast3(s);
      }
    }
  }

  lemma LeadingNewlinesAtLeast3(u: string)
    requires |u| >= 3 && u[0] == '\n' && u[1] == '\n' && u[2] == '\n'
    ensures LeadingNewlines(u) >= 3
  {
    assert LeadingNewlines(u) == 1 + LeadingNewlines(u[1..]);
    assert LeadingNewlines(u[1..]) == 1 + LeadingNewlines(u[2..]);
    assert LeadingNewlines(u[2..]) == 1 + LeadingNewlines(u[3..]);
  }

  /** The last rule of the chain is the collapse, so its output carries no
      run of three newlines. */
  lemma {:induction false} CollapsedHasNoTriple(rules: seq<Rule>, s: string)
    requires |rules| > 0 && rules[|rules| - 1] == BlankLines
    ensures NoTripleNewline(ApplyRules(rules, s))
    decreases |rules|
  {
    var next := ReplaceAll(rules[0], s, true);
    if |rules| == 1 {
      BlankLinesCollapse(s, true);
    } else {
      CollapsedHasNoTriple(rules[1..], next);
    }
  }

  /** The filter never introduces a newline, so it keeps the property. */
  lemma SanitizeKeepsNoTriple(s: string)
    requires NoTripleNewline(s)
    ensures NoTripleNewline(Sanitize(s))
  {
    var f := Sanitize(s);
    forall i | 0 <= i < |f| - 2
      ensures !(f[i] == '\n' && f[i + 1] == '\n' && f[i + 2] == '\n')
    {
      assert f[i] == '\n' ==> s[i] == '\n';
      assert f[i + 1] == '\n' ==> s[i + 1] == '\n';
      assert f[i + 2] == '\n' ==> s[i + 2] == '\n';
    }
  }

  /** Trimming takes a slice, which keeps the property. */
  lemma TrimKeepsNoTriple(f: string)
    requires NoTripleNewline(f)
    ensures NoTripleNewline(Trim(f))
  {
    var k := LeadingSpaces(f);
    var r := Trim(f);
    NoTripleSlice(f, k, k + |r|);
  }

  lemma NoTripleSlice(f: string, a: nat, b: nat)
    requires a <= b <= |f| && NoTripleNewline(f)
    ensures NoTripleNewline(f[a..b])
  {
    var r := f[a..b];
    forall i | 0 <= i < |r| - 2
      ensures !(r[i] == '\n' && r[i + 1] == '\n' && r[i + 2] == '\n')
    {
      assert r[i] == f[a + i] && r[i + 1] == f[a + i + 1] && r[i + 2] == f[a + i + 2];
    }
  }
}
