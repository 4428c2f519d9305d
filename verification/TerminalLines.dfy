/**
 Streaming terminal output: chunks of text become lines, and control sequences are taken out.
 */
module Sanitizer {
  import opened Ansi

  // ---------------------------------------------------------------- the four passes

  /** Where an operating system command beginning before `i` ends: after BEL or ESC \, whichever comes first. */
  function OscEnd(s: string, i: nat): (end: nat)
    requires i <= |s|
    ensures end == 0 || i < end <= |s|
    decreases |s| - i
  {
    if i == |s| then 0
    else if s[i] == BEL then i + 1
    else if s[i] == ESC && i + 1 < |s| && s[i + 1] == '\\' then i + 2
    else OscEnd(s, i + 1)
  }

  /** The length of the operating system command at the front, or 0. */
  function OscLength(s: string): (n: nat)
    ensures n <= |s|
  {
    if |s| >= 2 && s[0] == ESC && s[1] == ']' then OscEnd(s, 2) else 0
  }

  predicate Parameter(c: char) { '0' <= c <= '?' }
  predicate Intermediate(c: char) { ' ' <= c <= '/' }
  predicate Final(c: char) { '@' <= c <= '~' }

  function Skip(s: string, i: nat, kind: char -> bool): (end: nat)
    requires i <= |s|
    ensures i <= end <= |s|
    decreases |s| - i
  {
    if i < |s| && kind(s[i]) then Skip(s, i + 1, kind) else i
  }

  /** The length of the control sequence at the front, or 0. */
  function CsiLength(s: string): (n: nat)
    ensures n <= |s|
  {
    if |s| >= 2 && s[0] == ESC && s[1] == '[' then
      var i := Skip(s, Skip(s, 2, Parameter), Intermediate);
      if i < |s| && Final(s[i]) then i + 1 else 0
    else 0
  }

  /** `[@-Z\\-_]`: every one of the final characters up to `_` but `[`. */
  predicate Single(c: char) { '@' <= c <= '_' && c != '[' }

  function SingleLength(s: string): (n: nat)
    ensures n <= |s|
  {
    if |s| >= 2 && s[0] == ESC && Single(s[1]) then 2 else 0
  }

  /** Tab, line feed and carriage return are the only control characters that stay; backspace does not. */
  predicate Control(c: char) {
    (c < ' ' && c != '\t' && c != '\n' && c != '\r') || c == '\U{7f}'
  }

  function ControlLength(s: string): (n: nat)
    ensures n <= |s|
  {
    if s != [] && Control(s[0]) then 1 else 0
  }

  datatype Pass = Osc | Csi | Escape | Controls

  function MatchLength(p: Pass, s: string): (n: nat)
    ensures n <= |s|
  {
    match p
    case Osc => OscLength(s)
    case Csi => CsiLength(s)
    case Escape => SingleLength(s)
    case Controls => ControlLength(s)
  }

  /** A global replacement by the empty string: matches are taken from the left and do not overlap. */
  function Strip(p: Pass, s: string): string {
    if s == [] then []
    else if MatchLength(p, s) > 0 then Strip(p, s[MatchLength(p, s)..])
    else [s[0]] + Strip(p, s[1..])
  }

  function Sanitize(s: string): string {
    Strip(Controls, Strip(Escape, Strip(Csi, Strip(Osc, s))))
  }

  // ---------------------------------------------------------------- what is left is clean

  predicate Clean(s: string) {
    forall i :: 0 <= i < |s| ==> !Control(s[i])
  }

  lemma {:induction false} ControlsGone(s: string)
    ensures Clean(Strip(Controls, s))
  {
    if s != [] {
      ControlsGone(s[1..]);
    }
  }

  lemma {:induction false} CleanStays(p: Pass, s: string)
    requires Clean(s)
    ensures Strip(p, s) == s
  {
    if s != [] {
      assert !Control(s[0]);
      CleanStays(p, s[1..]);
    }
  }

  /** Sanitized text has no control character, and text that has none is left alone. */
  lemma SanitizeIsClean(s: string)
    ensures Clean(Sanitize(s))
    ensures Sanitize(s) == s <==> Clean(s)
    ensures Clean(s) <==> forall i :: 0 <= i < |s| && (s[i] < ' ' || s[i] == '\U{7f}') ==> s[i] in {'\t', '\n', '\r'}
  {
    ControlsGone(Strip(Escape, Strip(Csi, Strip(Osc, s))));
    if Clean(s) {
      CleanStays(Osc, s);
      CleanStays(Csi, s);
      CleanStays(Escape, s);
      CleanStays(Controls, s);
    }
  }

  // ---------------------------------------------------------------- complete sequences vanish

  /** What a program writes: text, complete sequences, and single control characters. */
  datatype Item =
    | Text(c: char)
    | Command(body: string, bell: bool)
    | Sequence(parameters: string, intermediates: string, final: char)
    | Pair(second: char)
    | Lone(c: char)

  predicate All(s: string, kind: char -> bool) {
    forall i :: 0 <= i < |s| ==> kind(s[i])
  }

  predicate WellFormed(item: Item) {
    match item
    case Text(c) => !Control(c)
    case Command(body, _) => All(body, c => c != ESC && c != BEL)
    case Sequence(parameters, intermediates, final) =>
      All(parameters, Parameter) && All(intermediates, Intermediate) && '@' <= final <= '~'
    case Pair(second) => '@' <= second <= '_' && second != '[' && second != ']'
    case Lone(c) => Control(c) && c != ESC
  }

  function Written(item: Item): string {
    match item
    case Text(c) => [c]
    case Command(body, bell) => [ESC, ']'] + body + (if bell then [BEL] else [ESC, '\\'])
    case Sequence(parameters, intermediates, final) => [ESC, '['] + parameters + intermediates + [final]
    case Pair(second) => [ESC, second]
    case Lone(c) => [c]
  }

  function WrittenAll(items: seq<Item>): string {
    if items == [] then [] else Written(items[0]) + WrittenAll(items[1..])
  }

  /** The pass that takes an item out; none for text. */
  predicate TakenBy(item: Item, p: Pass) {
    match p
    case Osc => item.Command?
    case Csi => item.Sequence?
    case Escape => item.Pair?
    case Controls => item.Lone?
  }

  function Without(items: seq<Item>, p: Pass): seq<Item> {
    if items == [] then []
    else if TakenBy(items[0], p) then Without(items[1..], p)
    else [items[0]] + Without(items[1..], p)
  }

  /** The items that are still there when a pass runs. */
  predicate Left(item: Item, p: Pass) {
    && WellFormed(item)
    && (p != Osc ==> !item.Command?)
    && (p == Escape || p == Controls ==> !item.Sequence?)
    && (p == Controls ==> !item.Pair?)
  }

  predicate AllLeft(items: seq<Item>, p: Pass) {
    forall i :: 0 <= i < |items| ==> Left(items[i], p)
  }

  lemma {:induction false} SkipAll(s: string, i: nat, n: nat, kind: char -> bool)
    requires i + n <= |s| && All(s[i..i + n], kind)
    requires i + n < |s| && !kind(s[i + n])
    ensures Skip(s, i, kind) == i + n
    decreases n
  {
    if n > 0 {
      assert s[i] == s[i..i + n][0];
      assert s[i + 1..i + n] == s[i..i + n][1..];
      SkipAll(s, i + 1, n - 1, kind);
    }
  }

  lemma {:induction false} OscEndIs(s: string, i: nat, n: nat)
    requires i + n < |s| && All(s[i..i + n], c => c != ESC && c != BEL)
    requires s[i + n] == BEL || (s[i + n] == ESC && i + n + 1 < |s| && s[i + n + 1] == '\\')
    ensures OscEnd(s, i) == if s[i + n] == BEL then i + n + 1 else i + n + 2
    decreases n
  {
    if n > 0 {
      assert s[i] == s[i..i + n][0];
      assert s[i + 1..i + n] == s[i..i + n][1..];
      OscEndIs(s, i + 1, n - 1);
    }
  }

  /** A pass takes an item at the front whole, if it is one of its own. */
  lemma TakenWhole(item: Item, rest: string, p: Pass)
    requires Left(item, p) && TakenBy(item, p)
    ensures MatchLength(p, Written(item) + rest) == |Written(item)|
  {
    var s := Written(item) + rest;
    match item
    case Command(body, bell) =>
      assert s[2..2 + |body|] == body;
      OscEndIs(s, 2, |body|);
    case Sequence(parameters, intermediates, final) =>
      CsiTaken(item, rest);
    case _ =>
  }

  lemma CsiTaken(item: Item, rest: string)
    requires item.Sequence? && WellFormed(item)
    ensures CsiLength(Written(item) + rest) == |Written(item)|
  {
    var s := Written(item) + rest;
    var a, b := |item.parameters|, |item.intermediates|;
    assert s[2..2 + a] == item.parameters;
    assert s[2 + a..2 + a + b] == item.intermediates;
    assert b > 0 ==> s[2 + a] == item.intermediates[0];
    assert s[2 + a + b] == item.final;
    SkipAll(s, 2, a, Parameter);
    SkipAll(s, 2 + a, b, Intermediate);
  }

  /** A pass leaves any other item at the front. */
  lemma {:induction false} OthersStay(p: Pass, s: string, rest: string)
    requires forall i :: 0 <= i < |s| ==> MatchLength(p, (s + rest)[i..]) == 0
    ensures Strip(p, s + rest) == s + Strip(p, rest)
  {
    hide MatchLength;
    if s == [] {
      assert s + rest == rest;
    } else {
      assert (s + rest)[0..] == s + rest;
      assert (s + rest)[1..] == s[1..] + rest;
      forall i | 0 <= i < |s[1..]| ensures MatchLength(p, (s[1..] + rest)[i..]) == 0 {
        assert (s[1..] + rest)[i..] == (s + rest)[i + 1..];
      }
      OthersStay(p, s[1..], rest);
    }
  }

  lemma NoMatchInside(item: Item, rest: string, p: Pass, i: nat)
    requires Left(item, p) && !TakenBy(item, p) && i < |Written(item)|
    ensures MatchLength(p, (Written(item) + rest)[i..]) == 0
  {
  }

  lemma {:induction false} PassTakesItsOwn(items: seq<Item>, p: Pass)
    requires AllLeft(items, p)
    ensures Strip(p, WrittenAll(items)) == WrittenAll(Without(items, p))
  {
    if items != [] {
      var item, rest := items[0], WrittenAll(items[1..]);
      assert Left(item, p);
      PassTakesItsOwn(items[1..], p);
      if TakenBy(item, p) {
        TakenWhole(item, rest, p);
        assert (Written(item) + rest)[|Written(item)|..] == rest;
      } else {
        forall i | 0 <= i < |Written(item)|
          ensures MatchLength(p, (Written(item) + rest)[i..]) == 0
        {
          NoMatchInside(item, rest, p, i);
        }
        OthersStay(p, Written(item), rest);
      }
    }
  }

  /** The text among the items. */
  function TextOf(items: seq<Item>): string {
    if items == [] then []
    else (if items[0].Text? then [items[0].c] else []) + TextOf(items[1..])
  }

  lemma {:induction false} WithoutLeaves(items: seq<Item>, p: Pass, q: Pass)
    requires AllLeft(items, p)
    requires (p == Osc && q == Csi) || (p == Csi && q == Escape) || (p == Escape && q == Controls)
    ensures AllLeft(Without(items, p), q)
    ensures TextOf(Without(items, p)) == TextOf(items)
  {
    if items != [] {
      assert Left(items[0], p);
      WithoutLeaves(items[1..], p, q);
    }
  }

  lemma {:induction false} OnlyTextLeft(items: seq<Item>)
    requires AllLeft(items, Controls)
    ensures WrittenAll(Without(items, Controls)) == TextOf(items)
  {
    if items != [] {
      assert Left(items[0], Controls);
      OnlyTextLeft(items[1..]);
    }
  }

  /** Sanitizing takes out exactly the sequences and control characters, and keeps all the text. */
  lemma SanitizeKeepsText(items: seq<Item>)
    requires AllLeft(items, Osc)
    ensures Sanitize(WrittenAll(items)) == TextOf(items)
  {
    hide AllLeft, Without, WrittenAll, TextOf, Strip;
    PassTakesItsOwn(items, Osc);
    WithoutLeaves(items, Osc, Csi);
    var commandsOut := Without(items, Osc);
    PassTakesItsOwn(commandsOut, Csi);
    WithoutLeaves(commandsOut, Csi, Escape);
    var sequencesOut := Without(commandsOut, Csi);
    PassTakesItsOwn(sequencesOut, Escape);
    WithoutLeaves(sequencesOut, Escape, Controls);
    var pairsOut := Without(sequencesOut, Escape);
    PassTakesItsOwn(pairsOut, Controls);
    OnlyTextLeft(pairsOut);
  }
}

/**
 Chunks of output are assembled into lines; where the stream is cut into chunks makes no difference.
 */
module TerminalLines {
  import opened Sanitizer

  const MAX_LINES: nat := 10000

  function Last<T>(s: seq<T>): T
    requires s != []
  {
    s[|s| - 1]
  }

  function DropLast<T>(s: seq<T>): seq<T>
    requires s != []
  {
    s[..|s| - 1]
  }

  // ---------------------------------------------------------------- splitting at line ends

  /** Splits at every line feed, taking one carriage return before it along. */
  function Split(s: string): (segments: seq<string>)
    ensures segments != []
  {
    if s == [] then [[]]
    else if |s| >= 2 && s[0] == '\r' && s[1] == '\n' then [[]] + Split(s[2..])
    else if s[0] == '\n' then [[]] + Split(s[1..])
    else
      var rest := Split(s[1..]);
      [[s[0]] + rest[0]] + rest[1..]
  }

  /** `segments` are the pieces of `s`: the last is free of line feeds and every other is followed by a line end. */
  ghost predicate Cut(s: string, segments: seq<string>)
    decreases |segments|
  {
    && segments != []
    && '\n' !in segments[0]
    && if |segments| == 1 then s == segments[0]
       else exists rest: string :: CutFirst(s, segments[0], rest) && Cut(rest, segments[1..])
  }

  /** The first line of `s` is `line`: a carriage return right before the line feed belongs to the line end. */
  predicate CutFirst(s: string, line: string, rest: string) {
    || s == line + ['\r', '\n'] + rest
    || (s == line + ['\n'] + rest && (line == [] || Last(line) != '\r'))
  }

  lemma CutLonger(c: char, s: string, segments: seq<string>)
    requires Cut(s, segments) && c != '\n' && !(c == '\r' && s != [] && s[0] == '\n')
    ensures Cut([c] + s, [[c] + segments[0]] + segments[1..])
  {
    var longer := [[c] + segments[0]] + segments[1..];
    assert longer[1..] == segments[1..];
    if |segments| > 1 {
      var rest: string :| CutFirst(s, segments[0], rest) && Cut(rest, segments[1..]);
      assert CutFirst([c] + s, longer[0], rest);
    }
  }

  lemma {:induction false} SplitCuts(s: string)
    ensures Cut(s, Split(s))
  {
    var segments := Split(s);
    if |s| >= 2 && s[0] == '\r' && s[1] == '\n' {
      SplitCuts(s[2..]);
      assert CutFirst(s, segments[0], s[2..]) && Cut(s[2..], segments[1..]);
    } else if s != [] && s[0] == '\n' {
      SplitCuts(s[1..]);
      assert CutFirst(s, segments[0], s[1..]) && Cut(s[1..], segments[1..]);
    } else if s != [] {
      SplitCuts(s[1..]);
      CutLonger(s[0], s[1..], Split(s[1..]));
    }
  }

  /** A character that begins no line end goes to the first piece. */
  lemma SplitLonger(s: string)
    requires s != [] && s[0] != '\n' && !(|s| >= 2 && s[0] == '\r' && s[1] == '\n')
    ensures var rest := Split(s[1..]);
            && Split(s) == [[s[0]] + rest[0]] + rest[1..]
            && (|rest| > 1 ==> Last(Split(s)) == Last(rest))
            && (|rest| > 1 ==> DropLast(Split(s)) == [[s[0]] + rest[0]] + DropLast(rest)[1..])
  {
  }

  /** A line end at the front of `s`, `n` characters long. */
  lemma SplitShorter(s: string, n: nat)
    requires (n == 1 && s != [] && s[0] == '\n') || (n == 2 && |s| >= 2 && s[0] == '\r' && s[1] == '\n')
    ensures var rest := Split(s[n..]);
            && Split(s) == [[]] + rest
            && Last(Split(s)) == Last(rest) && DropLast(Split(s)) == [[]] + DropLast(rest)
  {
    var rest := Split(s[n..]);
    assert Split(s) == [[]] + rest;
    hide Split;
    assert DropLast([[]] + rest) == [[]] + DropLast(rest);
  }

  lemma {:induction false} SplitLine(line: string)
    requires '\n' !in line
    ensures Split(line) == [line]
  {
    if line != [] {
      SplitLine(line[1..]);
      SplitLonger(line);
      assert line == [line[0]] + line[1..];
    }
  }

  lemma {:induction false} SplitFirst(s: string, line: string, rest: string)
    requires CutFirst(s, line, rest) && '\n' !in line
    ensures Split(s) == [line] + Split(rest)
    decreases |line|
  {
    if line == [] {
      assert s[1..] == rest || s[2..] == rest;
    } else {
      assert CutFirst(s[1..], line[1..], rest);
      assert |s| >= 2 && s[0] == '\r' ==> s[1] != '\n';
      SplitFirst(s[1..], line[1..], rest);
      SplitLonger(s);
      assert line == [line[0]] + line[1..];
    }
  }

  lemma {:induction false} CutIsSplit(s: string, segments: seq<string>)
    requires Cut(s, segments)
    ensures segments == Split(s)
    decreases |segments|
  {
    if |segments| == 1 {
      SplitLine(s);
    } else {
      var rest: string :| CutFirst(s, segments[0], rest) && Cut(rest, segments[1..]);
      CutIsSplit(rest, segments[1..]);
      SplitFirst(s, segments[0], rest);
    }
  }

  /** `Split` is the one way to cut a text into lines. */
  lemma SplitIff(s: string, segments: seq<string>)
    ensures Cut(s, segments) <==> segments == Split(s)
  {
    SplitCuts(s);
    if Cut(s, segments) {
      CutIsSplit(s, segments);
    }
  }

  lemma {:induction false} SplitOne(s: string)
    ensures |Split(s)| == 1 ==> Split(s)[0] == s
  {
    if s != [] {
      SplitOne(s[1..]);
    }
  }

  predicate AfterLineFeed(s: string, tail: string) {
    && '\n' !in tail && |tail| <= |s| && s[|s| - |tail|..] == tail
    && (|tail| == |s| || s[|s| - |tail| - 1] == '\n')
  }

  lemma AfterLineFeedLonger(s: string, n: nat, tail: string)
    requires 1 <= n <= |s| && AfterLineFeed(s[n..], tail) && (|tail| < |s| - n || s[n - 1] == '\n')
    ensures AfterLineFeed(s, tail)
  {
    assert s[|s| - |tail|..] == s[n..][|s| - n - |tail|..];
  }

  lemma {:induction false} MoreThanOne(s: string)
    ensures |Split(s)| > 1 ==> |Last(Split(s))| < |s|
  {
    if |s| >= 2 && s[0] == '\r' && s[1] == '\n' {
      MoreThanOne(s[2..]);
      SplitOne(s[2..]);
    } else if s != [] {
      MoreThanOne(s[1..]);
      SplitOne(s[1..]);
    }
  }

  /** The last piece is the text after the last line feed. */
  lemma {:induction false} LastIsAfterLineFeed(s: string)
    ensures AfterLineFeed(s, Last(Split(s)))
  {
    hide Split, AfterLineFeed;
    if |s| >= 2 && s[0] == '\r' && s[1] == '\n' {
      LastIsAfterLineFeed(s[2..]);
      SplitShorter(s, 2);
      AfterLineFeedLonger(s, 2, Last(Split(s)));
    } else if s != [] && s[0] == '\n' {
      LastIsAfterLineFeed(s[1..]);
      SplitShorter(s, 1);
      AfterLineFeedLonger(s, 1, Last(Split(s)));
    } else if |Split(s)| == 1 {
      SplitOne(s);
      LoneLine(s);
    } else {
      SplitLine([]);
      LastIsAfterLineFeed(s[1..]);
      SplitLonger(s);
      MoreThanOne(s[1..]);
      AfterLineFeedLonger(s, 1, Last(Split(s)));
    }
  }

  lemma {:induction false} LoneLine(s: string)
    requires |Split(s)| == 1
    ensures AfterLineFeed(s, s)
  {
    if s != [] {
      LoneLine(s[1..]);
    }
  }

  lemma DropLastOne(segments: seq<string>)
    requires |segments| == 1
    ensures DropLast(segments) == [] && Last(segments) == segments[0]
  {
  }

  lemma Prefixed(c: char, rest: seq<string>, more: seq<string>)
    requires |rest| > 1
    ensures DropLast(rest) != []
    ensures var all := DropLast(rest) + more;
            [[c] + all[0]] + all[1..] == [[c] + rest[0]] + DropLast(rest)[1..] + more
  {
  }

  lemma LineEndExtends(s: string, t: string, n: nat)
    requires (n == 1 && s != [] && s[0] == '\n') || (n == 2 && |s| >= 2 && s[0] == '\r' && s[1] == '\n')
    requires Split(s[n..] + t) == DropLast(Split(s[n..])) + Split(Last(Split(s[n..])) + t)
    ensures Split(s + t) == DropLast(Split(s)) + Split(Last(Split(s)) + t)
  {
    hide Split, Last, DropLast;
    assert (s + t)[n..] == s[n..] + t;
    SplitShorter(s, n);
    SplitShorter(s + t, n);
  }

  /** More text only ever continues the last piece. */
  lemma {:induction false} SplitExtends(s: string, t: string)
    ensures Split(s + t) == DropLast(Split(s)) + Split(Last(Split(s)) + t)
    decreases |s|
  {
    hide Split, Last, DropLast;
    SplitLine([]);
    if |Split(s)| == 1 {
      SplitOne(s);
      DropLastOne(Split(s));
      assert [] + Split(s + t) == Split(s + t);
    } else if |s| >= 2 && s[0] == '\r' && s[1] == '\n' {
      SplitExtends(s[2..], t);
      LineEndExtends(s, t, 2);
    } else if s != [] && s[0] == '\n' {
      SplitExtends(s[1..], t);
      LineEndExtends(s, t, 1);
    } else {
      SplitExtends(s[1..], t);
      assert (s + t)[1..] == s[1..] + t;
      SplitLonger(s);
      assert s[1..] != [];
      SplitLonger(s + t);
      Prefixed(s[0], Split(s[1..]), Split(Last(Split(s[1..])) + t));
    }
  }

  // ---------------------------------------------------------------- lines

  function AfterReturn(s: string): string {
    if '\r' in s then AfterReturn(s[1..]) else s
  }

  /** What a line shows: the text after its last carriage return. */
  function Resolve(segment: string): string {
    AfterReturn(Sanitize(segment))
  }

  function ResolveAll(segments: seq<string>): seq<string> {
    seq(|segments|, i requires 0 <= i < |segments| => Resolve(segments[i]))
  }

  function Latest(lines: seq<string>): seq<string> {
    if |lines| > MAX_LINES then lines[|lines| - MAX_LINES..] else lines
  }

  datatype Output = Output(lines: seq<string>, partialLine: string)

  const NOTHING := Output([], [])

  function Append(o: Output, data: string): Output {
    var segments := Split(o.partialLine + data);
    Output(Latest(o.lines + ResolveAll(DropLast(segments))), Last(segments))
  }

  /** What a whole text shows: the latest of its complete lines, and the line it breaks off in. */
  function OutputOf(text: string): Output {
    Output(Latest(ResolveAll(DropLast(Split(text)))), Last(Split(text)))
  }

  lemma LatestAgain(a: seq<string>, b: seq<string>)
    ensures Latest(Latest(a) + b) == Latest(a + b)
  {
  }

  lemma AppendExtends(text: string, data: string)
    ensures Append(OutputOf(text), data) == OutputOf(text + data)
  {
    hide Split, Latest;
    SplitExtends(text, data);
    var whole, more := DropLast(Split(text)), Split(Last(Split(text)) + data);
    assert DropLast(whole + more) == whole + DropLast(more);
    assert ResolveAll(whole + DropLast(more)) == ResolveAll(whole) + ResolveAll(DropLast(more));
    LatestAgain(ResolveAll(whole), ResolveAll(DropLast(more)));
  }

  function Feed(o: Output, chunks: seq<string>): Output
    decreases |chunks|
  {
    if chunks == [] then o else Feed(Append(o, chunks[0]), chunks[1..])
  }

  function Concat(chunks: seq<string>): string {
    if chunks == [] then [] else chunks[0] + Concat(chunks[1..])
  }

  lemma {:induction false} FeedingExtends(text: string, chunks: seq<string>)
    ensures Feed(OutputOf(text), chunks) == OutputOf(text + Concat(chunks))
    decreases |chunks|
  {
    hide OutputOf, Append;
    if chunks == [] {
      assert text + [] == text;
    } else {
      AppendExtends(text, chunks[0]);
      FeedingExtends(text + chunks[0], chunks[1..]);
      assert text + chunks[0] + Concat(chunks[1..]) == text + Concat(chunks);
    }
  }

  /** Any division of a text into chunks shows what the whole text shows. */
  lemma ChunksMakeNoDifference(chunks: seq<string>)
    ensures Feed(NOTHING, chunks) == OutputOf(Concat(chunks))
  {
    assert OutputOf([]) == NOTHING;
    FeedingExtends([], chunks);
    assert [] + Concat(chunks) == Concat(chunks);
  }

  lemma {:induction false} StripOnlyDrops(p: Pass, s: string, c: char)
    requires c in Strip(p, s)
    ensures c in s
    decreases |s|
  {
    if MatchLength(p, s) > 0 {
      StripOnlyDrops(p, s[MatchLength(p, s)..], c);
    } else if c != s[0] {
      StripOnlyDrops(p, s[1..], c);
    }
  }

  lemma SanitizeOnlyDrops(s: string, c: char)
    requires c in Sanitize(s)
    ensures c in s
  {
    StripOnlyDrops(Controls, Strip(Escape, Strip(Csi, Strip(Osc, s))), c);
    StripOnlyDrops(Escape, Strip(Csi, Strip(Osc, s)), c);
    StripOnlyDrops(Csi, Strip(Osc, s), c);
    StripOnlyDrops(Osc, s, c);
  }

  lemma {:induction false} AfterReturnIs(s: string)
    ensures '\r' !in AfterReturn(s)
    ensures |AfterReturn(s)| <= |s| && AfterReturn(s) == s[|s| - |AfterReturn(s)|..]
    ensures |AfterReturn(s)| == |s| || s[|s| - |AfterReturn(s)| - 1] == '\r'
  {
    if '\r' in s {
      AfterReturnIs(s[1..]);
    }
  }

  lemma {:induction false} NoLineFeedInside(s: string, i: nat)
    requires i < |Split(s)|
    ensures '\n' !in Split(s)[i]
    decreases |s|
  {
    if |s| >= 2 && s[0] == '\r' && s[1] == '\n' {
      if i > 0 { NoLineFeedInside(s[2..], i - 1); }
    } else if s != [] && s[0] == '\n' {
      if i > 0 { NoLineFeedInside(s[1..], i - 1); }
    } else if s != [] {
      NoLineFeedInside(s[1..], i);
    }
  }

  /** A line on show has no control character but tabs, whatever the program wrote. */
  lemma LinesArePlain(text: string, i: nat, c: char)
    requires i < |OutputOf(text).lines| && c in OutputOf(text).lines[i]
    ensures c == '\t' || !(c < ' ' || c == '\U{7f}')
  {
    hide Split, Sanitize, AfterReturn;
    var segments := DropLast(Split(text));
    var k := if |segments| > MAX_LINES then i + |segments| - MAX_LINES else i;
    var clean := Sanitize(segments[k]);
    assert OutputOf(text).lines[i] == AfterReturn(clean);
    AfterReturnIs(clean);
    SanitizeIsClean(segments[k]);
    assert c in clean && !Control(c);
    NoLineFeedInside(text, k);
    if c == '\n' {
      SanitizeOnlyDrops(segments[k], c);
    }
  }

  predicate AfterLastReturn(s: string, tail: string) {
    && '\r' !in tail && |tail| <= |s| && s[|s| - |tail|..] == tail
    && (|tail| == |s| || s[|s| - |tail| - 1] == '\r')
  }

  /**
   What is on show of a text: of its complete lines the latest, up to the limit, in order; and each of
   them, if written as text and complete sequences, as its text from the last carriage return on.
   */
  lemma LinesAre(text: string, segments: seq<string>, i: nat, items: seq<Item>)
    requires Cut(text, segments) && i + 1 < |segments|
    requires AllLeft(items, Osc) && WrittenAll(items) == segments[i]
    ensures var lines, all := OutputOf(text).lines, |segments| - 1;
            && |lines| == (if all > MAX_LINES then MAX_LINES else all)
            && (i >= all - |lines| ==> AfterLastReturn(TextOf(items), lines[i - (all - |lines|)]))
    ensures OutputOf(text).partialLine == segments[|segments| - 1]
  {
    hide *;
    SplitIff(text, segments);
    SanitizeKeepsText(items);
    LatestAre(text, segments, i);
    assert AfterLastReturn(TextOf(items), AfterReturn(TextOf(items))) by { AfterReturnIsLast(TextOf(items)); }
  }

  lemma AfterReturnIsLast(s: string)
    ensures AfterLastReturn(s, AfterReturn(s))
  {
    AfterReturnIs(s);
  }

  /** The lines on show are the last of all, in order. */
  lemma LatestAre(text: string, segments: seq<string>, i: nat)
    requires segments == Split(text) && i + 1 < |segments|
    ensures var lines, all := OutputOf(text).lines, |segments| - 1;
            && |lines| == (if all > MAX_LINES then MAX_LINES else all)
            && (i >= all - |lines| ==> lines[i - (all - |lines|)] == AfterReturn(Sanitize(segments[i])))
    ensures OutputOf(text).partialLine == segments[|segments| - 1]
  {
    hide Split, Sanitize, AfterReturn;
  }

  // ---------------------------------------------------------------- the pane's buffer

  class LineBuffer {
    var lines: seq<string>
    var partialLine: string
    var scrollOffset: nat

    constructor ()
      ensures lines == [] && partialLine == [] && scrollOffset == 0
    {
      lines, partialLine, scrollOffset := [], [], 0;
    }

    method AppendData(data: string)
      modifies this
      ensures Output(lines, partialLine) == Append(old(Output(lines, partialLine)), data)
      ensures scrollOffset == 0
    {
      var segments := Split(partialLine + data);
      partialLine := Last(segments);
      segments := DropLast(segments);
      for i := 0 to |segments|
        invariant lines == old(lines) + ResolveAll(segments[..i])
        modifies this`lines
      {
        lines := lines + [Resolve(segments[i])];
      }
      assert segments[..|segments|] == segments;
      if |lines| > MAX_LINES {
        lines := lines[|lines| - MAX_LINES..];
      }
      scrollOffset := 0;
    }
  }
}
