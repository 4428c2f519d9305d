/**
 Styled text: what is visible of it, padding it to a width, and cutting it to a width.
 */
module StyledText {
  import opened Ansi

  const RESET: string := [ESC, '[', '0', 'm']

  // ---------------------------------------------------------------- what is visible

  predicate Digit(c: char) { '0' <= c <= '9' || c == ';' }
  predicate Letter(c: char) { 'a' <= c <= 'z' || 'A' <= c <= 'Z' }

  function SkipDigits(s: string, i: nat): (end: nat)
    requires i <= |s|
    ensures i <= end <= |s|
    ensures forall k :: i <= k < end ==> Digit(s[k])
    ensures end < |s| ==> !Digit(s[end])
    decreases |s| - i
  {
    if i < |s| && Digit(s[i]) then SkipDigits(s, i + 1) else i
  }

  /** The place of the first BEL from `i` on, or the end. */
  function FindBell(s: string, i: nat): (end: nat)
    requires i <= |s|
    ensures i <= end <= |s|
    ensures forall k :: i <= k < end ==> s[k] != BEL
    ensures end < |s| ==> s[end] == BEL
    decreases |s| - i
  {
    if i < |s| && s[i] != BEL then FindBell(s, i + 1) else i
  }

  /** The length of the escape sequence at the front, or 0. */
  function SequenceLength(s: string): (n: nat)
    ensures n <= |s|
  {
    if |s| < 2 || s[0] != ESC then 0
    else if s[1] == '[' then
      var end := SkipDigits(s, 2);
      if end < |s| && Letter(s[end]) then end + 1 else 0
    else if s[1] == ']' then
      var end := FindBell(s, 2);
      if end < |s| then end + 1 else 0
    else 0
  }

  function StripAnsi(s: string): string {
    if s == [] then []
    else if SequenceLength(s) > 0 then StripAnsi(s[SequenceLength(s)..])
    else [s[0]] + StripAnsi(s[1..])
  }

  function VisibleLength(s: string): nat {
    |StripAnsi(s)|
  }

  // ---------------------------------------------------------------- padding

  function Repeat(fill: string, n: nat): string {
    if n == 0 then [] else fill + Repeat(fill, n - 1)
  }

  function PadEnd(s: string, width: int, fill: string): string {
    if VisibleLength(s) >= width then s else s + Repeat(fill, width - VisibleLength(s))
  }

  /** One character of the fill is visible, and it can complete no sequence that the text breaks off in. */
  predicate PadsWell(fill: string) {
    VisibleLength(fill) == 1 && fill != [] && BEL !in fill && !Letter(fill[0])
  }

  /** The rest of a sequence that breaks off before or among its digits. */
  predicate DigitsThenLetter(t: string) {
    var end := SkipDigits(t, 0);
    end < |t| && Letter(t[end])
  }

  /** Behind any text, this completes no sequence that the text breaks off in. */
  predicate Harmless(t: string) {
    && BEL !in t && !DigitsThenLetter(t)
    && (t != [] && t[0] == '[' ==> !DigitsThenLetter(t[1..]))
  }

  lemma SkipDigitsAcross(s: string, t: string, i: nat)
    requires i <= |s|
    ensures SkipDigits(s + t, i) == if SkipDigits(s, i) < |s| then SkipDigits(s, i) else |s| + SkipDigits(t, 0)
  {
    var end, own, next := SkipDigits(s + t, i), SkipDigits(s, i), SkipDigits(t, 0);
    hide SkipDigits;
    var wanted := if own < |s| then own else |s| + next;
    assert forall k | i <= k < wanted :: Digit((s + t)[k]);
    assert wanted < |s + t| ==> !Digit((s + t)[wanted]);
  }

  lemma FindBellAcross(s: string, t: string, i: nat)
    requires i <= |s| && BEL !in t
    ensures FindBell(s + t, i) == if FindBell(s, i) < |s| then FindBell(s, i) else |s + t|
  {
    var end, own := FindBell(s + t, i), FindBell(s, i);
    hide FindBell;
    if own < |s| {
      assert (s + t)[own] == BEL && forall k | i <= k < own :: (s + t)[k] != BEL;
    } else {
      assert forall k | i <= k < |s + t| :: (s + t)[k] != BEL;
    }
  }

  lemma SequenceStays(s: string, t: string)
    requires s != [] && Harmless(t)
    ensures SequenceLength(s + t) == SequenceLength(s)
  {
    hide SkipDigits, FindBell;
    if |s| >= 2 {
      SkipDigitsAcross(s, t, 2);
      FindBellAcross(s, t, 2);
    } else if t != [] {
      assert s + t == (s + [t[0]]) + t[1..];
      SkipDigitsAcross(s + [t[0]], t[1..], 2);
      FindBellAcross(s + [t[0]], t[1..], 2);
    }
  }

  lemma {:induction false} StripAcross(s: string, t: string)
    requires Harmless(t)
    ensures StripAnsi(s + t) == StripAnsi(s) + StripAnsi(t)
    decreases |s|
  {
    if s == [] {
      assert s + t == t;
    } else {
      SequenceStays(s, t);
      var k := if SequenceLength(s) > 0 then SequenceLength(s) else 1;
      assert (s + t)[k..] == s[k..] + t;
      hide SequenceLength, Harmless;
      StripAcross(s[k..], t);
    }
  }

  lemma {:induction false} RepeatHolds(fill: string, n: nat, c: char)
    requires c in Repeat(fill, n)
    ensures c in fill
  {
    if c !in fill {
      RepeatHolds(fill, n - 1, c);
    }
  }

  /** A sequence begins the fill, or its one visible character does. */
  lemma FillBegins(fill: string)
    requires PadsWell(fill)
    ensures fill[0] == ESC || |fill| == 1 || fill[1] == ESC
  {
    if fill[0] != ESC && |fill| > 1 {
      assert StripAnsi(fill) == [fill[0]] + StripAnsi(fill[1..]);
      assert fill[1..][0] == fill[1];
    }
  }

  lemma RepeatIsHarmless(fill: string, n: nat)
    requires PadsWell(fill)
    ensures Harmless(Repeat(fill, n))
  {
    var t := Repeat(fill, n);
    FillBegins(fill);
    forall c | c in t
      ensures c in fill
    {
      RepeatHolds(fill, n, c);
    }
    hide StripAnsi;
    if n > 0 {
      assert t[0] == fill[0] && (|fill| > 1 ==> t[1] == fill[1]);
      if |fill| == 1 {
        assert forall k | 0 <= k < |t| :: t[k] in fill;
        assert forall k | 0 <= k < |t[1..]| :: t[1..][k] in fill;
      }
    }
  }

  lemma {:induction false} RepeatIsVisible(fill: string, n: nat)
    requires PadsWell(fill)
    ensures VisibleLength(Repeat(fill, n)) == n
  {
    if n > 0 {
      RepeatIsVisible(fill, n - 1);
      RepeatIsHarmless(fill, n - 1);
      StripAcross(fill, Repeat(fill, n - 1));
    }
  }

  /** The text is as wide as asked, unless it was wider already, and what was visible still is. */
  ghost predicate PadsExactly(s: string, width: int, fill: string) {
    && VisibleLength(PadEnd(s, width, fill)) == (if VisibleLength(s) >= width then VisibleLength(s) else width)
    && StripAnsi(s) <= StripAnsi(PadEnd(s, width, fill))
  }

  lemma PadEndWidth(s: string, width: int, fill: string)
    requires PadsWell(fill)
    ensures PadsExactly(s, width, fill)
  {
    if VisibleLength(s) < width {
      var n := width - VisibleLength(s);
      RepeatIsHarmless(fill, n);
      RepeatIsVisible(fill, n);
      StripAcross(s, Repeat(fill, n));
    }
  }

  lemma BrokenOffIsVisible(s: string)
    requires |s| == 2 && s[0] == ESC && (s[1] == '[' || s[1] == ']')
    ensures StripAnsi(s) == s
  {
    var last := s[1..];
    assert SequenceLength(s) == 0 && SequenceLength(last) == 0 && last[1..] == [];
    assert StripAnsi(last) == [last[0]] + StripAnsi([]);
    assert s == [s[0]] + last;
  }

  lemma StripSteps(s: string)
    requires s != []
    ensures var n := SequenceLength(s);
            StripAnsi(s) == if n > 0 then StripAnsi(s[n..]) else [s[0]] + StripAnsi(s[1..])
  {
  }

  /** A BEL in a sequence ends it. */
  lemma BellEnds(s: string)
    requires SequenceLength(s) > 0
    ensures forall i | 0 <= i < SequenceLength(s) - 1 :: s[i] != BEL
  {
  }

  /** The first BEL of the text is at `b`. */
  predicate FirstBell(s: string, b: nat) {
    b < |s| && s[b] == BEL && forall i | 0 <= i < b :: s[i] != BEL
  }

  lemma FirstBellLater(s: string, b: nat, k: nat)
    requires FirstBell(s, b) && k <= b
    ensures FirstBell(s[k..], b - k) && s[k..][b - k + 1..] == s[b + 1..]
  {
  }

  lemma FirstBellEnds(s: string, b: nat)
    requires FirstBell(s, b) && b < SequenceLength(s)
    ensures b == SequenceLength(s) - 1
  {
    BellEnds(s);
  }

  /** What follows the first BEL shows no more than the whole does. */
  lemma {:induction false} AfterBell(s: string, b: nat)
    requires FirstBell(s, b)
    ensures VisibleLength(s[b + 1..]) <= VisibleLength(s)
    decreases |s|
  {
    hide *;
    var n := SequenceLength(s);
    var k := if n > 0 then n else 1;
    BellInRange(s, b);
    WidthSteps(s);
    if b < n {
      FirstBellEnds(s, b);
    } else if b >= k {
      FirstBellLater(s, b, k);
      AfterBell(s[k..], b - k);
    }
  }

  lemma BellInRange(s: string, b: nat)
    requires FirstBell(s, b)
    ensures b < |s|
  {
  }

  lemma WidthSteps(s: string)
    requires s != []
    ensures var n := SequenceLength(s);
            VisibleLength(s) == if n > 0 then VisibleLength(s[n..]) else VisibleLength(s[1..]) + 1
  {
    StripSteps(s);
    hide StripAnsi, SequenceLength;
  }

  /** A fill that is not one visible character overshoots or falls short; others complete a sequence. */
  lemma PadsBadly(fill: string) returns (s: string, width: int)
    requires !PadsWell(fill)
    ensures !PadsExactly(s, width, fill)
  {
    assert Repeat(fill, 1) == fill + [] == fill;
    if VisibleLength(fill) != 1 {
      s, width := [], 1;
      assert [] + fill == fill;
    } else {
      s, width := [ESC, if BEL in fill then ']' else '['], 3;
      BrokenOffIsVisible(s);
      CompletesBroken(s, fill);
    }
  }

  lemma CompletesBroken(s: string, fill: string)
    requires VisibleLength(fill) == 1 && fill != []
    requires if BEL in fill then s == [ESC, ']'] else s == [ESC, '['] && Letter(fill[0])
    ensures VisibleLength(s + fill) <= 1
  {
    hide VisibleLength, SequenceLength;
    WidthSteps(s + fill);
    if BEL in fill {
      var b := CommandCloses(fill);
      AfterBell(fill, b);
    } else {
      WidthSteps(fill);
      LetterCloses(fill);
    }
  }

  lemma CommandCloses(fill: string) returns (b: nat)
    requires BEL in fill
    ensures FirstBell(fill, b)
    ensures var s := [ESC, ']'] + fill; SequenceLength(s) == b + 3 && s[b + 3..] == fill[b + 1..]
  {
    var s := [ESC, ']'] + fill;
    b := FindBell(fill, 0);
    hide FindBell;
    assert s[b + 2] == BEL && forall i | 2 <= i < b + 2 :: s[i] == fill[i - 2];
    assert FindBell(s, 2) == b + 2;
  }

  lemma LetterCloses(fill: string)
    requires fill != [] && Letter(fill[0])
    ensures var s := [ESC, '['] + fill; SequenceLength(s) == 3 && s[3..] == fill[1..]
    ensures SequenceLength(fill) == 0
  {
    var s := [ESC, '['] + fill;
    assert s[2] == fill[0];
  }

  /**
   Padding is exact for every text and width if and only if one character of the fill is visible, the
   fill holds no BEL, and it does not begin with a letter.
   */
  lemma PadEndIff(fill: string)
    ensures (forall s, width :: PadsExactly(s, width, fill)) <==> PadsWell(fill)
  {
    if PadsWell(fill) {
      forall s: string, width: int ensures PadsExactly(s, width, fill) {
        PadEndWidth(s, width, fill);
      }
    } else {
      var s, width := PadsBadly(fill);
    }
  }

  // ---------------------------------------------------------------- truncation

  /** The first place of 'm', or -1. */
  function IndexOfM(s: string): (i: int)
    ensures -1 <= i < |s|
  {
    if s == [] then -1
    else if s[0] == 'm' then 0
    else
      var rest := IndexOfM(s[1..]);
      if rest < 0 then -1 else rest + 1
  }

  /** The front of the text up to `width` characters; from an ESC on, everything up to an 'm' counts for none. */
  function Front(s: string, width: int): string
    decreases |s|
  {
    if s == [] || width <= 0 then []
    else if s[0] == ESC && IndexOfM(s) >= 0 then s[..IndexOfM(s) + 1] + Front(s[IndexOfM(s) + 1..], width)
    else [s[0]] + Front(s[1..], width - 1)
  }

  function Truncated(s: string, maxWidth: int, suffix: string): string {
    if VisibleLength(s) <= maxWidth then s else Front(s, maxWidth - |suffix|) + RESET + suffix
  }

  lemma Associates(a: string, b: string, c: string)
    ensures a + (b + c) == a + b + c
  {
  }

  lemma FrontSteps(s: string, width: int)
    requires s != [] && width > 0
    ensures var end := if s[0] == ESC then IndexOfM(s) else -1;
            Front(s, width) == if end != -1 then s[..end + 1] + Front(s[end + 1..], width)
                               else [s[0]] + Front(s[1..], width - 1)
  {
  }

  lemma FrontEnds(s: string, width: int)
    requires s == [] || width <= 0
    ensures Front(s, width) == []
  {
  }

  /** `result` and what is still to come make up the front of the text. */
  predicate Reached(text: string, target: int, result: string, i: nat, visible: int) {
    i <= |text| && result + Front(text[i..], target - visible) == Front(text, target)
  }

  lemma ReachedStarts(text: string, target: int)
    ensures Reached(text, target, [], 0, 0)
  {
    assert text[0..] == text && [] + Front(text, target) == Front(text, target);
  }

  lemma ReachedNext(text: string, target: int, result: string, i: nat, visible: int)
    requires Reached(text, target, result, i, visible) && i < |text| && visible < target
    ensures var end := if text[i] == ESC then IndexOfM(text[i..]) else -1;
            if end != -1 then Reached(text, target, result + text[i..i + end + 1], i + end + 1, visible)
            else Reached(text, target, result + [text[i]], i + 1, visible + 1)
  {
    hide Front, IndexOfM;
    var rest := text[i..];
    FrontSteps(rest, target - visible);
    var end := if rest[0] == ESC then IndexOfM(rest) else -1;
    if end != -1 {
      assert rest[..end + 1] == text[i..i + end + 1] && rest[end + 1..] == text[i + end + 1..];
      Associates(result, rest[..end + 1], Front(rest[end + 1..], target - visible));
    } else {
      assert rest[1..] == text[i + 1..];
      Associates(result, [rest[0]], Front(rest[1..], target - visible - 1));
    }
  }

  lemma ReachedEnds(text: string, target: int, result: string, i: nat, visible: int)
    requires Reached(text, target, result, i, visible) && (i == |text| || visible >= target)
    ensures result == Front(text, target)
  {
    FrontEnds(text[i..], target - visible);
    assert result + [] == result;
  }

  method Truncate(text: string, maxWidth: int, suffix: string) returns (cut: string)
    ensures cut == Truncated(text, maxWidth, suffix)
  {
    hide Reached, Front, IndexOfM, StripAnsi;
    if VisibleLength(text) <= maxWidth {
      return text;
    }
    var target := maxWidth - |suffix|;
    var visible := 0;
    var result := [];
    var i := 0;
    ReachedStarts(text, target);
    while i < |text| && visible < target
      invariant i <= |text| && Reached(text, target, result, i, visible)
    {
      ReachedNext(text, target, result, i, visible);
      var end := if text[i] == ESC then IndexOfM(text[i..]) else -1;
      if end != -1 {
        result := result + text[i..i + end + 1];
        i := i + end + 1;
      } else {
        result := result + [text[i]];
        visible := visible + 1;
        i := i + 1;
      }
    }
    ReachedEnds(text, target, result, i, visible);
    return result + RESET + suffix;
  }

  // ---------------------------------------------------------------- styled text

  /** Text is made of characters, complete style sequences, complete sequences of other kinds, and system commands. */
  datatype Item =
    | Glyph(c: char)
    | Style(parameters: string)
    | Other(parameters: string, final: char)
    | Command(body: string)

  predicate AllDigits(parameters: string) {
    forall k :: 0 <= k < |parameters| ==> Digit(parameters[k])
  }

  predicate WellFormed(item: Item) {
    match item
    case Glyph(c) => c != ESC
    case Style(parameters) => AllDigits(parameters)
    case Other(parameters, final) => AllDigits(parameters) && Letter(final) && final != 'm'
    case Command(body) => ESC !in body && BEL !in body
  }

  /** Styled text proper has no sequences but styles. */
  predicate AllStyled(items: seq<Item>) {
    forall i :: 0 <= i < |items| ==> WellFormed(items[i]) && (items[i].Glyph? || items[i].Style?)
  }

  predicate AllWellFormed(items: seq<Item>) {
    forall i :: 0 <= i < |items| ==> WellFormed(items[i])
  }

  function Written(item: Item): string {
    match item
    case Glyph(c) => [c]
    case Style(parameters) => [ESC, '['] + parameters + ['m']
    case Other(parameters, final) => [ESC, '['] + parameters + [final]
    case Command(body) => [ESC, ']'] + body + [BEL]
  }

  function WrittenAll(items: seq<Item>): string {
    if items == [] then [] else Written(items[0]) + WrittenAll(items[1..])
  }

  function TextOf(items: seq<Item>): string {
    if items == [] then []
    else (if items[0].Glyph? then [items[0].c] else []) + TextOf(items[1..])
  }

  /** The items up to the `width`-th character. */
  function Head(items: seq<Item>, width: int): seq<Item>
    decreases |items|
  {
    if items == [] || width <= 0 then []
    else [items[0]] + Head(items[1..], if items[0].Glyph? then width - 1 else width)
  }

  lemma {:induction false} FirstM(s: string, i: nat)
    requires i < |s| && s[i] == 'm' && forall k :: 0 <= k < i ==> s[k] != 'm'
    ensures IndexOfM(s) == i
  {
    if i > 0 {
      FirstM(s[1..], i - 1);
    }
  }

  lemma OtherTakenWhole(item: Item, rest: string)
    requires item.Other? && WellFormed(item)
    ensures SequenceLength(Written(item) + rest) == |Written(item)|
  {
    var s, n := Written(item) + rest, |item.parameters|;
    assert forall k :: 2 <= k < n + 2 ==> s[k] == item.parameters[k - 2];
    assert s[n + 2] == item.final;
    assert SkipDigits(s, 2) == n + 2;
  }

  lemma CommandTakenWhole(item: Item, rest: string)
    requires item.Command? && WellFormed(item)
    ensures SequenceLength(Written(item) + rest) == |Written(item)|
  {
    var s, n := Written(item) + rest, |item.body|;
    assert forall k :: 2 <= k < n + 2 ==> s[k] == item.body[k - 2];
    assert s[n + 2] == BEL;
    assert FindBell(s, 2) == n + 2;
  }

  /** Both readings of a style sequence, as an escape sequence and as a run up to an 'm', take it whole. */
  lemma StyleTakenWhole(item: Item, rest: string)
    requires item.Style? && WellFormed(item)
    ensures SequenceLength(Written(item) + rest) == |Written(item)|
    ensures IndexOfM(Written(item) + rest) + 1 == |Written(item)|
  {
    var s, n := Written(item) + rest, |item.parameters|;
    assert forall k :: 2 <= k < n + 2 ==> s[k] == item.parameters[k - 2];
    assert s[n + 2] == 'm';
    assert SkipDigits(s, 2) == n + 2;
    FirstM(s, n + 2);
  }

  lemma OneIsVisible(item: Item, rest: string)
    requires WellFormed(item)
    ensures StripAnsi(Written(item) + rest) == (if item.Glyph? then [item.c] else []) + StripAnsi(rest)
  {
    assert (Written(item) + rest)[|Written(item)|..] == rest;
    if item.Style? {
      StyleTakenWhole(item, rest);
    } else if item.Other? {
      OtherTakenWhole(item, rest);
    } else if item.Command? {
      CommandTakenWhole(item, rest);
    }
  }

  lemma {:induction false} StyledIsVisible(items: seq<Item>, rest: string)
    requires AllWellFormed(items)
    ensures StripAnsi(WrittenAll(items) + rest) == TextOf(items) + StripAnsi(rest)
  {
    hide StripAnsi, Written;
    if items == [] {
      assert WrittenAll(items) + rest == rest;
      assert TextOf(items) + StripAnsi(rest) == StripAnsi(rest);
    } else {
      var more := WrittenAll(items[1..]) + rest;
      StyledIsVisible(items[1..], rest);
      Associates(Written(items[0]), WrittenAll(items[1..]), rest);
      OneIsVisible(items[0], more);
      Associates(if items[0].Glyph? then [items[0].c] else [], TextOf(items[1..]), StripAnsi(rest));
    }
  }

  lemma {:induction false} PlainIsVisible(s: string)
    requires ESC !in s
    ensures StripAnsi(s) == s
  {
    if s != [] {
      PlainIsVisible(s[1..]);
    }
  }

  lemma {:induction false} FrontIsHead(items: seq<Item>, width: int)
    requires AllStyled(items)
    ensures Front(WrittenAll(items), width) == WrittenAll(Head(items, width))
  {
    if items != [] && width > 0 {
      var first, more := Written(items[0]), WrittenAll(items[1..]);
      assert (first + more)[|first|..] == more && (first + more)[..|first|] == first;
      if items[0].Style? {
        StyleTakenWhole(items[0], more);
        FrontIsHead(items[1..], width);
      } else {
        FrontIsHead(items[1..], width - 1);
      }
    }
  }

  lemma {:induction false} HeadIsPrefix(items: seq<Item>, width: int)
    ensures |Head(items, width)| <= |items| && Head(items, width) == items[..|Head(items, width)|]
  {
    if items != [] && width > 0 {
      HeadIsPrefix(items[1..], if items[0].Glyph? then width - 1 else width);
    }
  }

  lemma {:induction false} HeadShows(items: seq<Item>, width: int)
    ensures TextOf(Head(items, width))
         == if width <= 0 then [] else if width < |TextOf(items)| then TextOf(items)[..width] else TextOf(items)
  {
    if items != [] && width > 0 {
      HeadShows(items[1..], if items[0].Glyph? then width - 1 else width);
    }
  }

  lemma WidthOf(items: seq<Item>)
    requires AllWellFormed(items)
    ensures StripAnsi(WrittenAll(items)) == TextOf(items)
  {
    StyledIsVisible(items, []);
    assert WrittenAll(items) + [] == WrittenAll(items);
    assert TextOf(items) + [] == TextOf(items);
  }

  lemma ResetIsInvisible(suffix: string)
    requires ESC !in suffix
    ensures StripAnsi(RESET + suffix) == suffix
  {
    var reset := Style(['0']);
    StyleTakenWhole(reset, suffix);
    assert Written(reset) == RESET;
    assert (RESET + suffix)[4..] == suffix;
    PlainIsVisible(suffix);
  }

  /** Styled text that is too wide keeps its first characters and their styles, and ends in the suffix. */
  lemma TruncatedIs(items: seq<Item>, maxWidth: int, suffix: string)
    requires AllStyled(items) && ESC !in suffix
    ensures var text, cut := WrittenAll(items), Truncated(WrittenAll(items), maxWidth, suffix);
            if |TextOf(items)| <= maxWidth then cut == text
            else
              && StripAnsi(cut) == TextOf(items)[..if maxWidth < |suffix| then 0 else maxWidth - |suffix|] + suffix
              && exists k :: 0 <= k <= |items| && cut == WrittenAll(items[..k]) + RESET + suffix
  {
    hide StripAnsi, Front, WrittenAll, TextOf, Head;
    var text, target := WrittenAll(items), maxWidth - |suffix|;
    WidthOf(items);
    if |TextOf(items)| > maxWidth {
      FrontIsHead(items, target);
      HeadIsPrefix(items, target);
      HeadShows(items, target);
      var head := Head(items, target);
      assert Truncated(text, maxWidth, suffix) == WrittenAll(head) + (RESET + suffix);
      StyledIsVisible(head, RESET + suffix);
      ResetIsInvisible(suffix);
    }
  }

  /** Truncating styled text keeps within the width if and only if nothing is cut or the suffix itself fits. */
  lemma StyledFitsIff(items: seq<Item>, maxWidth: int, suffix: string)
    requires AllStyled(items) && ESC !in suffix
    ensures VisibleLength(Truncated(WrittenAll(items), maxWidth, suffix)) <= maxWidth
       <==> |TextOf(items)| <= maxWidth || |suffix| <= maxWidth
  {
    TruncatedIs(items, maxWidth, suffix);
    WidthOf(items);
  }

  /** A cell of a table: cut to the width and padded to it, styled text is exactly that wide. */
  lemma CellWidthIff(items: seq<Item>, width: int, suffix: string, fill: string)
    requires AllStyled(items) && ESC !in suffix && PadsWell(fill)
    ensures VisibleLength(PadEnd(Truncated(WrittenAll(items), width, suffix), width, fill)) == width
       <==> |TextOf(items)| <= width || |suffix| <= width
  {
    StyledFitsIff(items, width, suffix);
    PadEndWidth(Truncated(WrittenAll(items), width, suffix), width, fill);
  }

  lemma {:induction false} PlainInFront(s: string, rest: string)
    requires ESC !in s
    ensures StripAnsi(s + rest) == s + StripAnsi(rest)
  {
    if s == [] {
      assert s + rest == rest;
    } else {
      PlainInFront(s[1..], rest);
      assert s == Written(Glyph(s[0])) + s[1..];
      OneIsVisible(Glyph(s[0]), s[1..] + rest);
      hide StripAnsi;
      Associates(Written(Glyph(s[0])), s[1..], rest);
      Associates([s[0]], s[1..], StripAnsi(rest));
    }
  }

  lemma {:induction false} FrontOfPlain(s: string, width: nat)
    requires ESC !in s && width <= |s|
    ensures Front(s, width) == s[..width]
  {
    if width > 0 {
      FrontOfPlain(s[1..], width - 1);
    }
  }
}
