/** The section navigation of an article page: which elements start a
    section, the bounded previous/next navigation, the scroll spy that
    picks the current section from the scroll position, the buttons it
    enables, the `#section-N` links, the play button and keyboard
    shortcuts, and the speed button that cycles through the speeds.

    Positions are whole pixels.  The document is given as the layout
    function `top`, from the index of a child element of the article to
    its absolute top; window size, page height and the scroll position
    reach the model as parameters. */
module Navigation {
  import opened JsText

  /** A child element of the article body: a horizontal rule or any other
      element. */
  datatype Node = Rule | Block

  /** What the page is asked to do: scroll the window, tell the speech
      controller to play from an element, or to toggle play/pause. */
  datatype Command = ScrollTo(y: int) | PlaySection(element: nat) | ToggleSpeech

  /** The navigation bar: the article's section elements (indices of
      children), the current section index, the "current section" label
      and the disabled flags of the previous/next buttons. `bound` says
      whether the page has the bar, so that `init()` went past its early
      return and bound the listeners. */
  datatype Nav = Nav(
    sections: seq<nat>,
    active: int,
    current: string,
    prevDisabled: bool,
    nextDisabled: bool,
    bound: bool)

  // ---------------------------------------------------------------------
  // Section discovery

  /** The first child at or after `k` that is not a rule: the
      `nextElementSibling` walk that skips rules. */
  function NextBlock(children: seq<Node>, k: nat): (r: Option<nat>)
    ensures r.Some? ==> k <= r.value < |children| && children[r.value] == Block
    ensures r.Some? ==> forall j | k <= j < r.value :: children[j] == Rule
    ensures r.None? ==> forall j | k <= j < |children| :: children[j] == Rule
    decreases |children| - k
  {
    if k >= |children| then None
    else if children[k] == Block then Some(k)
    else assert children[k] == Rule; NextBlock(children, k + 1)
  }

  /** The walk from `k` stops at the first non-rule element. */
  lemma {:induction false} NextBlockIs(children: seq<Node>, k: nat, x: nat)
    requires k <= x < |children| && children[x] == Block
    requires forall j | k <= j < x :: children[j] == Rule
    ensures NextBlock(children, k) == Some(x)
    decreases x - k
  {
    if k < x {
      NextBlockIs(children, k + 1, x);
    }
  }

  /** What the rules at index `i` and later add to the section list, as
      the loop over every rule is written: each rule adds the first
      non-rule element after it, so every rule of a run adds the same
      element. */
  function RuleSections(children: seq<Node>, i: nat): (r: seq<nat>)
    ensures forall x | 0 <= x < |r| :: i < r[x] < |children| && children[r[x]] == Block
    decreases |children| - i
  {
    if i >= |children| then []
    else
      var here := if children[i] == Rule && NextBlock(children, i + 1).Some?
                  then [NextBlock(children, i + 1).value] else [];
      here + RuleSections(children, i + 1)
  }

  /** `scanSections` as written: the first child, then one section per
      rule. */
  function ScanSectionsAsWritten(children: seq<Node>): (r: seq<nat>)
    ensures |children| > 0 <==> |r| > 0
    ensures |r| > 0 ==> r[0] == 0
    ensures forall x | 0 <= x < |r| :: r[x] < |children|
    ensures forall x | 1 <= x < |r| :: children[r[x]] == Block
  {
    (if |children| > 0 then [0] else []) + RuleSections(children, 0)
  }

  /** Two rules in a row give the element after them two sections: the
      article `p, hr, hr, p` is shown as three sections, the last two the
      same paragraph. */
  lemma DoubleRuleDuplicates()
    ensures ScanSectionsAsWritten([Block, Rule, Rule, Block]) == [0, 3, 3]
  {
    var c := [Block, Rule, Rule, Block];
    assert NextBlock(c, 3) == Some(3);
    assert NextBlock(c, 2) == Some(3);
    assert RuleSections(c, 4) == [];
    assert RuleSections(c, 3) == [];
    assert RuleSections(c, 2) == [3];
    assert RuleSections(c, 1) == [3, 3];
    assert RuleSections(c, 0) == [3, 3];
  }

  /** An element starts a section after a break when it follows a rule. */
  predicate AfterBreak(children: seq<Node>, x: int) {
    0 < x < |children| && children[x] == Block && children[x - 1] == Rule
  }

  /** The elements at index `x` and later that follow a rule, in order. */
  function Breaks(children: seq<Node>, x: nat): (r: seq<nat>)
    decreases |children| - x
  {
    if x >= |children| then []
    else (if AfterBreak(children, x) then [x] else []) + Breaks(children, x + 1)
  }

  /** `scanSections` with each run of rules giving one section: the first
      child, then every element that directly follows a rule. */
  function ScanSections(children: seq<Node>): (r: seq<nat>)
    ensures |children| > 0 <==> |r| > 0
  {
    (if |children| > 0 then [0] else []) + Breaks(children, 1)
  }

  predicate StrictlyIncreasing(s: seq<nat>) {
    forall i, j | 0 <= i < j < |s| :: s[i] < s[j]
  }

  lemma {:induction false} BreaksSound(children: seq<Node>, x: nat)
    ensures forall k | 0 <= k < |Breaks(children, x)| ::
              x <= Breaks(children, x)[k] && AfterBreak(children, Breaks(children, x)[k])
    decreases |children| - x
  {
    if x < |children| {
      BreaksSound(children, x + 1);
      var here := if AfterBreak(children, x) then [x] else [];
      var rest := Breaks(children, x + 1);
      var r := Breaks(children, x);
      assert r == here + rest;
      forall k | 0 <= k < |r| ensures x <= r[k] && AfterBreak(children, r[k]) {
        if k >= |here| {
          assert r[k] == rest[k - |here|];
        }
      }
    }
  }

  lemma {:induction false} BreaksIncreasing(children: seq<Node>, x: nat)
    ensures StrictlyIncreasing(Breaks(children, x))
    decreases |children| - x
  {
    if x < |children| {
      BreaksIncreasing(children, x + 1);
      BreaksSound(children, x + 1);
      var here := if AfterBreak(children, x) then [x] else [];
      var rest := Breaks(children, x + 1);
      var r := Breaks(children, x);
      assert r == here + rest;
      forall i, j | 0 <= i < j < |r| ensures r[i] < r[j] {
        assert r[j] == rest[j - |here|];
        if i >= |here| {
          assert r[i] == rest[i - |here|];
        }
      }
    }
  }

  lemma {:induction false} BreaksComplete(children: seq<Node>, x: nat, y: nat)
    requires x <= y && AfterBreak(children, y)
    ensures y in Breaks(children, x)
    decreases y - x
  {
    if x < y {
      BreaksComplete(children, x + 1, y);
    }
  }

  /** The corrected list starts with the first child, is free of
      repeats, never holds a rule after the first place, and holds
      exactly the elements that follow a rule. */
  lemma ScanSectionsSpec(children: seq<Node>)
    ensures var r := ScanSections(children);
            && (|r| > 0 ==> r[0] == 0)
            && StrictlyIncreasing(r)
            && (forall k | 1 <= k < |r| :: AfterBreak(children, r[k]))
            && (forall y: nat | AfterBreak(children, y) :: y in r)
  {
    var r := ScanSections(children);
    var b := Breaks(children, 1);
    BreaksSound(children, 1);
    BreaksIncreasing(children, 1);
    forall y: nat | AfterBreak(children, y) ensures y in r {
      BreaksComplete(children, 1, y);
    }
    if |children| > 0 {
      assert r == [0] + b;
      forall k | 1 <= k < |r| ensures AfterBreak(children, r[k]) {
        assert r[k] == b[k - 1];
      }
    } else {
      assert r == b;
    }
  }

  /** The rules from `i` on add exactly the elements after `i + 1` that
      follow a rule: a run of rules adds its next element once per rule. */
  lemma {:induction false} RuleSectionsMembers(children: seq<Node>, i: nat, x: nat)
    ensures x in RuleSections(children, i) <==> i < x && AfterBreak(children, x)
    decreases |children| - i
  {
    if i < |children| {
      RuleSectionsMembers(children, i + 1, x);
      var here := if children[i] == Rule && NextBlock(children, i + 1).Some?
                  then [NextBlock(children, i + 1).value] else [];
      assert RuleSections(children, i) == here + RuleSections(children, i + 1);
      if x == i + 1 && AfterBreak(children, x) {
        NextBlockIs(children, i + 1, x);
      }
      if here != [] && here[0] == x && x > i + 1 {
        assert children[x - 1] == Rule;
      }
    }
  }

  /** The as-written list and the corrected one hold the same elements
      after the first child: the as-written one only repeats some. */
  lemma SameSections(children: seq<Node>, x: nat)
    ensures x in RuleSections(children, 0) <==> x in Breaks(children, 1)
  {
    RuleSectionsMembers(children, 0, x);
    BreaksSound(children, 1);
    if AfterBreak(children, x) {
      BreaksComplete(children, 1, x);
    }
  }

  // ---------------------------------------------------------------------
  // Section ids and links

  const SectionPrefix: string := "section-"

  /** The id given to section `index`, numbered from one. */
  function SectionId(index: nat): (r: string)
    ensures |r| > |SectionPrefix| && r[..|SectionPrefix|] == SectionPrefix
    ensures AllDigits(r[|SectionPrefix|..])
  {
    SectionPrefix + NatToString(index + 1)
  }

  /** `handleInitialHash`: the section index named by `location.hash`
      when, after its first character, it reads `section-` and one or
      more ASCII digits and nothing else. */
  function HashTarget(hash: string): (r: Option<int>)
    ensures r.Some? ==> r.value >= -1
    ensures r.Some? <==> |hash| > 1 + |SectionPrefix| && hash[1..1 + |SectionPrefix|] == SectionPrefix
                         && AllDigits(hash[1 + |SectionPrefix|..])
  {
    if |hash| == 0 then None
    else
      var h := hash[1..];
      if |h| > |SectionPrefix| && h[..|SectionPrefix|] == SectionPrefix && AllDigits(h[|SectionPrefix|..])
      then Some(DigitsValue(h[|SectionPrefix|..]) - 1)
      else None
  }

  /** The link to section `i` leads back to section `i`. */
  lemma HashRoundTrip(i: nat)
    ensures HashTarget("#" + SectionId(i)) == Some(i as int)
  {
    var h := ("#" + SectionId(i))[1..];
    assert h == SectionId(i);
    assert h[|SectionPrefix|..] == NatToString(i + 1);
    DigitsValueOfNatToString(i + 1);
  }

  /** A hash that names a section with a canonical number is that
      section's link. */
  lemma HashIsLink(hash: string)
    requires HashTarget(hash).Some? && HashTarget(hash).value >= 0
    requires hash[1 + |SectionPrefix|] != '0'
    ensures hash[1..] == SectionId(HashTarget(hash).value as nat)
  {
    var digits := hash[1 + |SectionPrefix|..];
    assert digits[0] == hash[1 + |SectionPrefix|];
    NatToStringOfDigits(digits);
    assert hash[1..] == SectionPrefix + digits;
  }

  // ---------------------------------------------------------------------
  // Scrolling and navigation

  const HeaderOffset: int := 20
  const SpyOffset: int := 200

  /** `scrollToSection`: a section in range scrolls the window to 20
      pixels above its element; any other index does nothing. */
  function ScrollToSection(n: Nav, top: nat -> int, index: int): (r: seq<Command>)
    ensures 0 <= index < |n.sections| ==> r == [ScrollTo(top(n.sections[index]) - HeaderOffset)]
    ensures !(0 <= index < |n.sections|) ==> r == []
  {
    if index < 0 || index >= |n.sections| then [] else [ScrollTo(top(n.sections[index]) - HeaderOffset)]
  }

  /** `navigate(dir)`: scrolls to the section `dir` steps away when there
      is one and, while speech is playing, asks to play from it. */
  function Navigate(n: Nav, top: nat -> int, dir: int, playing: bool): (r: seq<Command>)
    ensures var t := n.active + dir;
            && (0 <= t < |n.sections| ==> |r| >= 1 && r[0] == ScrollTo(top(n.sections[t]) - HeaderOffset))
            && (0 <= t < |n.sections| && playing ==> r == r[..1] + [PlaySection(n.sections[t])])
            && (0 <= t < |n.sections| && !playing ==> |r| == 1)
            && (!(0 <= t < |n.sections|) ==> r == [])
  {
    var target := n.active + dir;
    if 0 <= target < |n.sections| then
      ScrollToSection(n, top, target) + (if playing then [PlaySection(n.sections[target])] else [])
    else []
  }

  /** The play button: while playing it toggles speech off; otherwise it
      asks to play from the current section, when there is one. */
  function PlayPressed(n: Nav, playing: bool): (r: seq<Command>)
    ensures playing ==> r == [ToggleSpeech]
    ensures !playing && 0 <= n.active < |n.sections| ==> r == [PlaySection(n.sections[n.active])]
    ensures !playing && !(0 <= n.active < |n.sections|) ==> r == []
  {
    if playing then [ToggleSpeech]
    else if 0 <= n.active < |n.sections| then [PlaySection(n.sections[n.active])]
    else []
  }

  datatype Key = ArrowLeft | ArrowRight | Space | OtherKey

  /** The keyboard shortcuts: ignored with a modifier held or while typing
      in a form field; the arrows act as the previous/next buttons, space
      toggles speech. */
  function KeyDown(n: Nav, top: nat -> int, playing: bool, key: Key, modified: bool, inField: bool)
    : (r: seq<Command>)
    ensures modified || inField ==> r == []
    ensures !modified && !inField && key == ArrowLeft ==> r == Navigate(n, top, -1, playing)
    ensures !modified && !inField && key == ArrowRight ==> r == Navigate(n, top, 1, playing)
    ensures !modified && !inField && key == Space ==> r == [ToggleSpeech]
    ensures key == OtherKey ==> r == []
  {
    if modified || inField then []
    else match key
      case ArrowLeft => Navigate(n, top, -1, playing)
      case ArrowRight => Navigate(n, top, 1, playing)
      case Space => [ToggleSpeech]
      case OtherKey => []
  }

  // ---------------------------------------------------------------------
  // Scroll spy

  /** The absolute tops of the section elements. */
  function Tops(n: Nav, top: nat -> int): (r: seq<int>)
    ensures |r| == |n.sections|
    ensures forall i | 0 <= i < |r| :: r[i] == top(n.sections[i])
  {
    seq(|n.sections|, i requires 0 <= i < |n.sections| => top(n.sections[i]))
  }

  /** A section is reached once the scroll position is at most 200 pixels
      above its top. */
  predicate Reached(tops: seq<int>, scrollY: int, i: int)
    requires 0 <= i < |tops|
  {
    scrollY >= tops[i] - SpyOffset
  }

  /** End of the leading run of reached sections from `i` on. */
  function RunEnd(tops: seq<int>, scrollY: int, i: nat): (k: nat)
    requires i <= |tops|
    ensures i <= k <= |tops|
    ensures forall j | i <= j < k :: Reached(tops, scrollY, j)
    ensures k == |tops| || !Reached(tops, scrollY, k)
    decreases |tops| - i
  {
    if i == |tops| || !Reached(tops, scrollY, i) then i else RunEnd(tops, scrollY, i + 1)
  }

  lemma {:induction false} RunEndIs(tops: seq<int>, scrollY: int, s: nat, i: nat)
    requires s <= i <= |tops|
    requires forall j | s <= j < i :: Reached(tops, scrollY, j)
    requires i == |tops| || !Reached(tops, scrollY, i)
    ensures RunEnd(tops, scrollY, s) == i
    decreases i - s
  {
    if s < i {
      RunEndIs(tops, scrollY, s + 1, i);
    }
  }

  /** The index the scroll spy picks: the last section of the leading run
      of reached ones (0 when the run is empty), or the last section when
      the page is scrolled to the bottom (-1 when there is none). */
  function SpyIndex(tops: seq<int>, scrollY: int, atBottom: bool): (r: int)
    ensures atBottom ==> r == |tops| - 1
    ensures !atBottom ==> 0 <= r && (|tops| > 0 ==> r < |tops|)
    ensures !atBottom && |tops| > 0 && Reached(tops, scrollY, 0) ==>
              && (forall j | 0 <= j <= r :: Reached(tops, scrollY, j))
              && (r + 1 == |tops| || !Reached(tops, scrollY, r + 1))
    ensures !atBottom && (|tops| == 0 || !Reached(tops, scrollY, 0)) ==> r == 0
  {
    if atBottom then |tops| - 1
    else
      var k := RunEnd(tops, scrollY, 0);
      if k == 0 then 0 else k - 1
  }

  /** The `for` loop of the scroll handler, with its `break`, followed by
      the bottom-of-page override. */
  method ComputeSpyIndex(tops: seq<int>, scrollY: int, atBottom: bool) returns (newIndex: int)
    ensures newIndex == SpyIndex(tops, scrollY, atBottom)
  {
    newIndex := 0;
    var i := 0;
    while i < |tops|
      invariant 0 <= i <= |tops|
      invariant forall j | 0 <= j < i :: Reached(tops, scrollY, j)
      invariant newIndex == if i == 0 then 0 else i - 1
      decreases |tops| - i
    {
      if scrollY >= tops[i] - SpyOffset {
        newIndex := i;
      } else {
        break;
      }
      i := i + 1;
    }
    RunEndIs(tops, scrollY, 0, i);
    if atBottom {
      newIndex := |tops| - 1;
    }
  }

  /** The scroll handler: when the picked index differs from the current
      one it becomes current, the label shows it numbered from one and the
      buttons at the ends are disabled; otherwise nothing changes. */
  function OnScroll(n: Nav, top: nat -> int, scrollY: int, atBottom: bool): (r: Nav)
    ensures r.sections == n.sections
    ensures var i := SpyIndex(Tops(n, top), scrollY, atBottom);
            && (i == n.active ==> r == n)
            && (i != n.active ==>
                  && r.active == i && i + 1 >= 0
                  && r.current == NatToString(i + 1)
                  && (r.prevDisabled <==> i <= 0)
                  && (r.nextDisabled <==> i >= |n.sections| - 1))
  {
    var i := SpyIndex(Tops(n, top), scrollY, atBottom);
    if i == n.active then n
    else n.(active := i, current := NatToString(i + 1),
            prevDisabled := i <= 0, nextDisabled := i >= |n.sections| - 1)
  }

  /** The current index is a section, or, with no sections, the initial 0
      or the -1 the bottom override gives. */
  predicate ActiveOk(n: Nav) {
    if |n.sections| == 0 then n.active == 0 || n.active == -1
    else 0 <= n.active < |n.sections|
  }

  /** The label and button flags agree with the current index. */
  predicate Shown(n: Nav) {
    && n.active + 1 >= 0 && n.current == NatToString(n.active + 1)
    && (n.prevDisabled <==> n.active <= 0)
    && (n.nextDisabled <==> n.active >= |n.sections| - 1)
  }

  lemma OnScrollKeepsActiveOk(n: Nav, top: nat -> int, scrollY: int, atBottom: bool)
    requires ActiveOk(n)
    ensures ActiveOk(OnScroll(n, top, scrollY, atBottom))
    ensures Shown(n) ==> Shown(OnScroll(n, top, scrollY, atBottom))
  {
  }

  /** Handling the same scroll position twice changes nothing the second
      time. */
  lemma OnScrollIdempotent(n: Nav, top: nat -> int, scrollY: int, atBottom: bool)
    ensures var once := OnScroll(n, top, scrollY, atBottom);
            OnScroll(once, top, scrollY, atBottom) == once
  {
  }

  /** Section tops more than 180 pixels apart, in order. */
  predicate Spread(tops: seq<int>) {
    forall i, j | 0 <= i && j == i + 1 < |tops| :: tops[j] > tops[i] + (SpyOffset - HeaderOffset)
  }

  lemma {:induction false} SpreadOrdered(tops: seq<int>, i: nat, j: nat)
    requires Spread(tops) && i <= j < |tops|
    ensures tops[i] <= tops[j]
    decreases j - i
  {
    if i < j {
      SpreadOrdered(tops, i, j - 1);
      assert tops[j] > tops[j - 1] + (SpyOffset - HeaderOffset);
    }
  }

  /** Navigating to a section and then handling the scroll it causes
      makes that section current, when sections are more than 180 pixels
      apart and the page is not at its bottom. */
  lemma NavigateLands(n: Nav, top: nat -> int, dir: int, playing: bool)
    requires 0 <= n.active + dir < |n.sections|
    requires Spread(Tops(n, top))
    ensures var cmds := Navigate(n, top, dir, playing);
            cmds[0].ScrollTo? && SpyIndex(Tops(n, top), cmds[0].y, false) == n.active + dir
  {
    var t := n.active + dir;
    var tops := Tops(n, top);
    var y := tops[t] - HeaderOffset;
    forall j | 0 <= j <= t ensures Reached(tops, y, j) {
      SpreadOrdered(tops, j, t);
    }
    if t + 1 < |tops| {
      assert tops[t + 1] > tops[t] + (SpyOffset - HeaderOffset);
    }
    RunEndIs(tops, y, 0, t + 1);
  }

  // ---------------------------------------------------------------------
  // Events

  /** What reaches the listeners `bindEvents` and `setupScrollSpy` add:
      the scroll event, the previous, next, back-to-top and play buttons,
      the `tts:cmd:nav-prev` / `tts:cmd:nav-next` window events and key
      presses. */
  datatype Input =
    | Scrolled(scrollY: int, atBottom: bool)
    | PrevPressed
    | NextPressed
    | TopPressed
    | PlayButton
    | NavPrevEvent
    | NavNextEvent
    | KeyPressed(key: Key, modified: bool, inField: bool)

  /** One input: with no bar nothing is listening; otherwise only
      scrolling changes the navigation state, and the buttons, window
      events and keys only issue commands. */
  function Handle(n: Nav, top: nat -> int, playing: bool, e: Input): (r: (Nav, seq<Command>))
    ensures !n.bound ==> r == (n, [])
    ensures n.bound && e.Scrolled? ==> r == (OnScroll(n, top, e.scrollY, e.atBottom), [])
    ensures n.bound && (e.PrevPressed? || e.NavPrevEvent?) ==> r == (n, Navigate(n, top, -1, playing))
    ensures n.bound && (e.NextPressed? || e.NavNextEvent?) ==> r == (n, Navigate(n, top, 1, playing))
    ensures n.bound && e.TopPressed? ==> r == (n, [ScrollTo(0)])
    ensures n.bound && e.PlayButton? ==> r == (n, PlayPressed(n, playing))
    ensures n.bound && e.KeyPressed? ==> r == (n, KeyDown(n, top, playing, e.key, e.modified, e.inField))
  {
    if !n.bound then (n, [])
    else
      match e
      case Scrolled(y, b) => (OnScroll(n, top, y, b), [])
      case PrevPressed => (n, Navigate(n, top, -1, playing))
      case NextPressed => (n, Navigate(n, top, 1, playing))
      case TopPressed => (n, [ScrollTo(0)])
      case PlayButton => (n, PlayPressed(n, playing))
      case NavPrevEvent => (n, Navigate(n, top, -1, playing))
      case NavNextEvent => (n, Navigate(n, top, 1, playing))
      case KeyPressed(k, m, f) => (n, KeyDown(n, top, playing, k, m, f))
  }

  /** Every input keeps the current index valid, and navigation never
      moves the current index itself: the scroll it asks for does. */
  lemma HandleKeepsActiveOk(n: Nav, top: nat -> int, playing: bool, e: Input)
    requires ActiveOk(n)
    ensures ActiveOk(Handle(n, top, playing, e).0)
    ensures !e.Scrolled? ==> Handle(n, top, playing, e).0 == n
  {
    if n.bound && e.Scrolled? {
      OnScrollKeepsActiveOk(n, top, e.scrollY, e.atBottom);
    }
  }

  /** `handleInitialHash`: a location hash naming a section
      (`#section-N`) scrolls to section N - 1 (the 100 ms `setTimeout` is
      taken as immediate); any other hash, or none, does nothing. */
  function InitialScroll(n: Nav, top: nat -> int, hash: string): (r: seq<Command>)
    ensures HashTarget(hash).Some? ==> r == ScrollToSection(n, top, HashTarget(hash).value)
    ensures HashTarget(hash).None? ==> r == []
  {
    match HashTarget(hash)
    case Some(index) => ScrollToSection(n, top, index)
    case None => []
  }

  /** Opening the link of section `i` scrolls to that section. */
  lemma InitialScrollToLink(n: Nav, top: nat -> int, i: nat)
    requires i < |n.sections|
    ensures InitialScroll(n, top, "#" + SectionId(i)) == [ScrollTo(top(n.sections[i]) - HeaderOffset)]
  {
    HashRoundTrip(i);
  }

  /** `init()`: with no navigation bar on the page (`bar` false) it
      returns at once: no sections, index 0, label and buttons as the
      markup set them, no listeners and no scroll. Otherwise the sections
      as the scan finds them, the first one current, then the scroll
      handler run once by `setupScrollSpy`, so a page opened scrolled down
      or at its bottom starts at the section the scroll spy picks; last,
      `handleInitialHash` asks for the scroll the location hash names. */
  function Init(bar: bool, children: seq<Node>, top: nat -> int, scrollY: int, atBottom: bool,
                current: string, prevDisabled: bool, nextDisabled: bool, hash: string): (r: (Nav, seq<Command>))
    ensures r.0.bound == bar && ActiveOk(r.0)
    ensures !bar ==> r.0.sections == [] && r.0.active == 0 && r.1 == []
    ensures !bar ==> r.0.current == current && r.0.prevDisabled == prevDisabled && r.0.nextDisabled == nextDisabled
    ensures bar ==> r.0.sections == ScanSectionsAsWritten(children)
    ensures bar ==> r.0.active == SpyIndex(Tops(r.0, top), scrollY, atBottom)
    ensures bar ==> r.1 == InitialScroll(r.0, top, hash)
  {
    if !bar then (Nav([], 0, current, prevDisabled, nextDisabled, false), [])
    else
      var n := Nav(ScanSectionsAsWritten(children), 0, current, prevDisabled, nextDisabled, true);
      OnScrollKeepsActiveOk(n, top, scrollY, atBottom);
      var m := OnScroll(n, top, scrollY, atBottom);
      (m, InitialScroll(m, top, hash))
  }

  // ---------------------------------------------------------------------
  // Speed button

  /** The floating speed button selects the next option of the speed
      list, wrapping to the first after the last. */
  function NextSpeed(selected: int, count: nat): (r: int)
    ensures selected + 1 < count ==> r == selected + 1
    ensures selected + 1 >= count ==> r == 0
  {
    var next := selected + 1;
    if next >= count then 0 else next
  }

  /** `k` presses of the speed button. */
  function SpeedAfter(selected: int, count: nat, k: nat): int {
    if k == 0 then selected else NextSpeed(SpeedAfter(selected, count, k - 1), count)
  }

  /** Before the end of the list each press selects the next option. */
  lemma {:induction false} SpeedAdvances(selected: int, count: nat, k: nat)
    requires selected + k < count
    ensures SpeedAfter(selected, count, k) == selected + k
  {
    if k > 0 {
      SpeedAdvances(selected, count, k - 1);
    }
  }

  lemma {:induction false} SpeedCompose(selected: int, count: nat, a: nat, b: nat)
    ensures SpeedAfter(selected, count, a + b) == SpeedAfter(SpeedAfter(selected, count, a), count, b)
    decreases b
  {
    if b > 0 {
      SpeedCompose(selected, count, a, b - 1);
    }
  }

  /** As many presses as there are speeds come back to the same one:
      up to the last option, then round to the first, then up again. */
  lemma SpeedFullCircle(selected: nat, count: nat)
    requires selected < count
    ensures SpeedAfter(selected, count, count) == selected
  {
    var a := count - 1 - selected;
    SpeedAdvances(selected, count, a);
    SpeedCompose(selected, count, a, 1);
    SpeedCompose(selected, count, a + 1, selected);
    SpeedAdvances(0, count, selected);
  }
}
