/**
 Truncating text with sequences other than styles: `truncate` takes every escape character for the
 start of a style, skips to the next 'm', and counts characters where there is none.
 */
module Truncation {
  import opened Ansi
  import opened StyledText

  /** The item holds an 'm' that ends a skip. */
  predicate EndsSkip(item: Item) {
    'm' in Written(item)
  }

  /** How many items a skip that begins with them takes, up to the first that ends it; 0 if none does. */
  function Skipped(items: seq<Item>): (n: nat)
    ensures n <= |items|
    ensures n > 0 ==> EndsSkip(items[n - 1])
    ensures forall i :: 0 <= i < (if n > 0 then n - 1 else |items|) ==> !EndsSkip(items[i])
  {
    if items == [] then 0
    else if EndsSkip(items[0]) then 1
    else if Skipped(items[1..]) == 0 then 0
    else Skipped(items[1..]) + 1
  }

  /** How many characters of the item follow its first 'm'. */
  function AfterM(item: Item): (n: nat)
    ensures n <= |Written(item)|
  {
    |Written(item)| - 1 - IndexOfM(Written(item))
  }

  /**
   What is kept: the first `kept` items and then part of a sequence.  `charged` is what the loop has
   counted, `swallowed` the visible characters it passed over in skips, those of a sequence that is
   then broken off among them, and `counted` the characters of complete sequences that it took for
   visible ones.
   */
  datatype Cut = Cut(kept: nat, part: string, charged: nat, swallowed: nat, counted: nat)

  function CutOf(items: seq<Item>, width: int): Cut
    decreases |items|
  {
    if items == [] || width <= 0 then Cut(0, [], 0, 0, 0)
    else if items[0].Glyph? then
      var rest := CutOf(items[1..], width - 1);
      rest.(kept := rest.kept + 1, charged := rest.charged + 1)
    else
      var n, first := Skipped(items), Written(items[0]);
      if n == 0 then
        if width < |first| then Cut(0, first[..width], width, 0, 0)
        else
          var rest := CutOf(items[1..], width - |first|);
          rest.(kept := rest.kept + 1, charged := rest.charged + |first|, counted := rest.counted + |first|)
      else
        var last, tail := Written(items[n - 1]), AfterM(items[n - 1]);
        if width < tail then
          Cut(n - 1, last[..|last| - tail + width], width, |TextOf(items[..n - 1])| + |last| - tail, 0)
        else
          var rest := CutOf(items[n..], width - tail);
          Cut(rest.kept + n, rest.part, rest.charged + tail, rest.swallowed + |TextOf(items[..n])|,
              rest.counted + tail)
  }

  // ---------------------------------------------------------------- where a skip ends

  lemma {:induction false} WrittenSplit(items: seq<Item>, k: nat)
    requires k <= |items|
    ensures WrittenAll(items) == WrittenAll(items[..k]) + WrittenAll(items[k..])
    ensures TextOf(items) == TextOf(items[..k]) + TextOf(items[k..])
  {
    if k > 0 {
      WrittenSplit(items[1..], k - 1);
      assert items[..k][1..] == items[1..][..k - 1] && items[1..][k - 1..] == items[k..];
      hide WrittenAll, TextOf;
      WrittenFirst(items);
      WrittenFirst(items[..k]);
      Associates(Written(items[0]), WrittenAll(items[1..][..k - 1]), WrittenAll(items[k..]));
      Associates(if items[0].Glyph? then [items[0].c] else [], TextOf(items[1..][..k - 1]), TextOf(items[k..]));
    } else {
      assert items[..0] == [] && items[0..] == items;
      assert [] + WrittenAll(items) == WrittenAll(items) && [] + TextOf(items) == TextOf(items);
    }
  }

  lemma WrittenFirst(items: seq<Item>)
    requires items != []
    ensures WrittenAll(items) == Written(items[0]) + WrittenAll(items[1..])
    ensures TextOf(items) == (if items[0].Glyph? then [items[0].c] else []) + TextOf(items[1..])
  {
  }

  lemma {:induction false} NoMAtAll(items: seq<Item>)
    requires forall i :: 0 <= i < |items| ==> !EndsSkip(items[i])
    ensures 'm' !in WrittenAll(items)
  {
    if items != [] {
      NoMAtAll(items[1..]);
    }
  }

  lemma {:induction false} NoMIsFound(s: string)
    requires 'm' !in s
    ensures IndexOfM(s) == -1
  {
    if s != [] {
      NoMIsFound(s[1..]);
    }
  }

  lemma {:induction false} MAfter(s: string, t: string)
    requires 'm' !in s
    ensures IndexOfM(s + t) == if IndexOfM(t) < 0 then -1 else |s| + IndexOfM(t)
  {
    if s == [] {
      assert s + t == t;
    } else {
      MAfter(s[1..], t);
      assert (s + t)[1..] == s[1..] + t;
    }
  }

  lemma {:induction false} MBefore(s: string, t: string)
    requires 'm' in s
    ensures IndexOfM(s + t) == IndexOfM(s) >= 0
  {
    if s[0] != 'm' {
      MBefore(s[1..], t);
      assert (s + t)[1..] == s[1..] + t;
    }
  }

  /** A skip ends right after the first 'm' of the item that ends it. */
  lemma SkipIs(items: seq<Item>)
    ensures var n := Skipped(items);
            IndexOfM(WrittenAll(items))
            == if n > 0 then |WrittenAll(items[..n - 1])| + IndexOfM(Written(items[n - 1])) else -1
  {
    var n := Skipped(items);
    hide Skipped, IndexOfM, WrittenAll, Written;
    if n > 0 {
      var head, last := WrittenAll(items[..n - 1]), Written(items[n - 1]);
      SkipSplits(items, n);
      NoMAtAll(items[..n - 1]);
      MAfter(head, last + WrittenAll(items[n..]));
      MBefore(last, WrittenAll(items[n..]));
    } else {
      NoMAtAll(items);
      NoMIsFound(WrittenAll(items));
    }
  }

  lemma SkipSplits(items: seq<Item>, n: nat)
    requires 0 < n <= |items|
    ensures WrittenAll(items) == WrittenAll(items[..n - 1]) + (Written(items[n - 1]) + WrittenAll(items[n..]))
    ensures WrittenAll(items[..n]) == WrittenAll(items[..n - 1]) + Written(items[n - 1])
    ensures TextOf(items[..n]) == TextOf(items[..n - 1]) + if items[n - 1].Glyph? then [items[n - 1].c] else []
  {
    hide *;
    SlicesAt(items, n);
    SplitLast(items, n);
    WrittenSplit(items, n - 1);
    WrittenFirst(items[n - 1..]);
  }

  lemma SplitLast(items: seq<Item>, n: nat)
    requires 0 < n <= |items|
    ensures WrittenAll(items[..n]) == WrittenAll(items[..n - 1]) + Written(items[n - 1])
    ensures TextOf(items[..n]) == TextOf(items[..n - 1]) + if items[n - 1].Glyph? then [items[n - 1].c] else []
  {
    hide *;
    SlicesAt(items, n);
    WrittenSplit(items[..n], n - 1);
    WrittenOne(items[n - 1]);
  }

  lemma SlicesAt(items: seq<Item>, n: nat)
    requires 0 < n <= |items|
    ensures items[n - 1..][0] == items[n - 1] && items[n - 1..][1..] == items[n..]
    ensures items[..n][..n - 1] == items[..n - 1] && items[..n][n - 1..] == [items[n - 1]]
  {
  }

  lemma WrittenOne(item: Item)
    ensures WrittenAll([item]) == Written(item)
    ensures TextOf([item]) == if item.Glyph? then [item.c] else []
  {
    assert Written(item) + [] == Written(item);
  }

  // ---------------------------------------------------------------- the loop, item by item

  lemma {:induction false} FrontOfPlain(s: string, rest: string, width: int)
    requires ESC !in s
    ensures Front(s + rest, width)
         == if width <= 0 then [] else if width <= |s| then s[..width] else s + Front(rest, width - |s|)
    decreases |s|
  {
    hide *;
    if width <= 0 {
      FrontEnds(s + rest, width);
    } else if s == [] {
      assert s + rest == rest && s + Front(rest, width) == Front(rest, width);
    } else {
      var tail := s[1..];
      FrontOfPlain(tail, rest, width - 1);
      assert s == [s[0]] + tail && (s + rest)[1..] == tail + rest;
      FrontSteps(s + rest, width);
      if width <= |s| {
        FrontEnds(rest, 0);
        assert s[..width] == [s[0]] + tail[..width - 1];
      } else {
        Associates([s[0]], tail, Front(rest, width - |s|));
      }
    }
  }

  lemma EscapeFirst(item: Item)
    requires WellFormed(item) && !item.Glyph?
    ensures Written(item) != [] && Written(item)[0] == ESC && ESC !in Written(item)[1..]
  {
  }

  /** Without an 'm' to come, the characters of a sequence count one by one. */
  lemma FrontCounts(item: Item, rest: string, width: nat)
    requires !item.Glyph? && WellFormed(item) && width > 0 && IndexOfM(Written(item) + rest) < 0
    ensures var s := Written(item);
            Front(s + rest, width) == if width <= |s| then s[..width] else s + Front(rest, width - |s|)
  {
    EscapeFirst(item);
    var s := Written(item);
    var tail := s[1..];
    hide *;
    FrontSteps(s + rest, width);
    FirstApart(s, rest);
    FrontOfPlain(tail, rest, width - 1);
    if width <= |s| {
      assert s[..width] == [s[0]] + tail[..width - 1];
    } else {
      Associates([s[0]], tail, Front(rest, width - |s|));
    }
  }

  lemma FirstApart(s: string, rest: string)
    requires s != []
    ensures (s + rest)[0] == s[0] && (s + rest)[1..] == s[1..] + rest && s == [s[0]] + s[1..]
  {
  }

  /** A skip takes everything to the first 'm'; what is left of that sequence counts one by one. */
  lemma FrontSkips(items: seq<Item>, width: int)
    requires items != [] && AllWellFormed(items) && !items[0].Glyph? && width > 0 && Skipped(items) > 0
    ensures var n := Skipped(items);
            var head, last, tail := WrittenAll(items[..n - 1]), Written(items[n - 1]), AfterM(items[n - 1]);
            && tail < |last|
            && Front(WrittenAll(items), width)
               == if width < tail then head + last[..|last| - tail + width]
                  else WrittenAll(items[..n]) + Front(WrittenAll(items[n..]), width - tail)
  {
    hide *;
    var n := Skipped(items);
    var head, last, tail := WrittenAll(items[..n - 1]), Written(items[n - 1]), AfterM(items[n - 1]);
    var e, rest, s := |last| - tail, WrittenAll(items[n..]), WrittenAll(items);
    SkipEnds(items);
    SkipSplits(items, n);
    WrittenBegins(items);
    FrontSteps(s, width);
    SliceJoin(head, last, e, rest);
    FrontOfPlain(last[e..], rest, width);
    SkipJoins(head, last, e, rest, width);
  }

  lemma SliceJoin(head: string, last: string, e: nat, rest: string)
    requires e <= |last|
    ensures var s := head + (last + rest);
            s[..|head| + e] == head + last[..e] && s[|head| + e..] == last[e..] + rest
  {
  }

  lemma SkipEnds(items: seq<Item>)
    requires items != [] && AllWellFormed(items) && Skipped(items) > 0
    ensures var n := Skipped(items);
            var last, tail := Written(items[n - 1]), AfterM(items[n - 1]);
            && tail < |last| && ESC !in last[|last| - tail..]
            && IndexOfM(WrittenAll(items)) + 1 == |WrittenAll(items[..n - 1])| + |last| - tail > 0
            && IndexOfM(WrittenAll(items)) != -1
  {
    var n := Skipped(items);
    SkipIs(items);
    TailIsPlain(items[n - 1]);
    hide WrittenAll, Written, IndexOfM, Skipped;
  }

  lemma SkipJoins(head: string, last: string, e: nat, rest: string, width: int)
    requires e <= |last| && width > 0
    ensures var tail := last[e..];
            head + last[..e] + (if width <= |tail| then tail[..width] else tail + Front(rest, width - |tail|))
            == if width < |tail| then head + last[..e + width] else head + last + Front(rest, width - |tail|)
  {
    var tail := last[e..];
    FrontEnds(rest, 0);
    hide Front;
    assert last[..e] + tail == last;
    if width < |tail| {
      assert last[..e] + tail[..width] == last[..e + width];
    } else if width == |tail| {
      assert tail[..width] == tail && head + last + [] == head + last;
      Associates(head, last[..e], tail);
    } else {
      Associates(head, last[..e], tail + Front(rest, width - |tail|));
      Associates(last[..e], tail, Front(rest, width - |tail|));
      Associates(head, last, Front(rest, width - |tail|));
    }
  }

  lemma WrittenBegins(items: seq<Item>)
    requires items != [] && AllWellFormed(items) && !items[0].Glyph?
    ensures WrittenAll(items) != [] && WrittenAll(items)[0] == ESC
  {
    WrittenFirst(items);
    EscapeFirst(items[0]);
  }

  /** What follows an item's first 'm' holds no escape character. */
  lemma TailIsPlain(item: Item)
    requires WellFormed(item) && EndsSkip(item)
    ensures AfterM(item) < |Written(item)| && ESC !in Written(item)[|Written(item)| - AfterM(item)..]
  {
    MBefore(Written(item), []);
    assert Written(item) + [] == Written(item);
    var e := |Written(item)| - AfterM(item);
    if !item.Glyph? {
      EscapeFirst(item);
      assert Written(item)[e..] == Written(item)[1..][e - 1..];
    }
  }

  ghost predicate IsCut(items: seq<Item>, width: int, c: Cut) {
    && c.charged <= (if width > 0 then width else 0)
    && (c.charged < width ==> c.kept == |items|)
    && Shows(items, width, c) && Balances(items, c)
    && IsPart(c.part) && (IsCommandPart(c.part) ==> HasCommand(items))
  }

  ghost predicate Shows(items: seq<Item>, width: int, c: Cut) {
    c.kept <= |items| && Front(WrittenAll(items), width) == WrittenAll(items[..c.kept]) + c.part
  }

  predicate Balances(items: seq<Item>, c: Cut) {
    c.kept <= |items| && |TextOf(items[..c.kept])| + |c.part| + c.counted == c.charged + c.swallowed
  }

  /** The beginning of a sequence that is not complete, or nothing. */
  predicate IsPart(part: string) {
    && (|part| > 0 ==> part[0] == ESC)
    && (|part| > 1 ==> (part[1] == '[' && AllDigits(part[2..])) || IsCommandPart(part))
  }

  predicate IsCommandPart(part: string) {
    |part| > 1 && part[0] == ESC && part[1] == ']' && ESC !in part[2..] && BEL !in part[2..]
  }

  predicate HasCommand(items: seq<Item>) {
    exists i :: 0 <= i < |items| && items[i].Command?
  }

  lemma PartOf(item: Item, k: nat)
    requires WellFormed(item) && !item.Glyph? && k < |Written(item)|
    ensures IsPart(Written(item)[..k]) && (IsCommandPart(Written(item)[..k]) ==> item.Command?)
  {
    var part := Written(item)[..k];
    if k > 1 {
      var inner := if item.Command? then item.body else item.parameters;
      assert part[2..] == inner[..k - 2];
    }
  }

  lemma HasCommandLater(items: seq<Item>, k: nat)
    requires k <= |items| && HasCommand(items[k..])
    ensures HasCommand(items)
  {
    var i :| 0 <= i < |items[k..]| && items[k..][i].Command?;
    assert items[k + i].Command?;
  }

  lemma KeptGrows(items: seq<Item>, k: nat, m: nat)
    requires k + m <= |items|
    ensures WrittenAll(items[..m + k]) == WrittenAll(items[..k]) + WrittenAll(items[k..][..m])
    ensures |TextOf(items[..m + k])| == |TextOf(items[..k])| + |TextOf(items[k..][..m])|
  {
    hide WrittenAll, TextOf;
    WrittenSplit(items[..m + k], k);
    assert items[..m + k][..k] == items[..k];
    assert items[..m + k][k..] == items[k..][..m];
  }

  lemma CutLonger(items: seq<Item>, k: nat, width: int, rest: Cut, less: int, swallowed: nat, counted: nat)
    requires 0 < k <= |items| && IsCut(items[k..], less, rest) && width > 0 && 0 <= less <= width
    requires Front(WrittenAll(items), width) == WrittenAll(items[..k]) + Front(WrittenAll(items[k..]), less)
    requires |TextOf(items[..k])| + counted == width - less + swallowed
    ensures IsCut(items, width, Cut(rest.kept + k, rest.part, rest.charged + (width - less),
                                    rest.swallowed + swallowed, rest.counted + counted))
  {
    if IsCommandPart(rest.part) {
      HasCommandLater(items, k);
    }
    var c := Cut(rest.kept + k, rest.part, rest.charged + (width - less), rest.swallowed + swallowed,
                 rest.counted + counted);
    hide IsPart, IsCommandPart, HasCommand, Front, WrittenAll, TextOf;
    assert rest.kept <= |items[k..]|;
    hide Shows, Balances;
    ShowsLonger(items, k, width, rest, less, c);
    BalancesLonger(items, k, rest, c);
  }

  lemma ShowsLonger(items: seq<Item>, k: nat, width: int, rest: Cut, less: int, c: Cut)
    requires k <= |items| && Shows(items[k..], less, rest) && c.kept == rest.kept + k && c.part == rest.part
    requires Front(WrittenAll(items), width) == WrittenAll(items[..k]) + Front(WrittenAll(items[k..]), less)
    ensures Shows(items, width, c)
  {
    hide Front, WrittenAll, TextOf;
    KeptGrows(items, k, rest.kept);
    Associates(WrittenAll(items[..k]), WrittenAll(items[k..][..rest.kept]), rest.part);
  }

  lemma BalancesLonger(items: seq<Item>, k: nat, rest: Cut, c: Cut)
    requires k <= |items| && Balances(items[k..], rest) && c.kept == rest.kept + k && c.part == rest.part
    requires |TextOf(items[..k])| + (c.counted - rest.counted)
          == (c.charged - rest.charged) + (c.swallowed - rest.swallowed)
    ensures Balances(items, c)
  {
    hide WrittenAll, TextOf;
    KeptGrows(items, k, rest.kept);
  }

  lemma {:induction false} CutIs(items: seq<Item>, width: int)
    requires AllWellFormed(items)
    ensures IsCut(items, width, CutOf(items, width))
    decreases |items|
  {
    hide *;
    if items == [] || width <= 0 {
      CutNothing(items, width);
    } else if items[0].Glyph? {
      WellFormedTail(items, 1);
      CutIs(items[1..], width - 1);
      ExtendOne(items, width);
    } else if Skipped(items) > 0 {
      var n := Skipped(items);
      var less := width - AfterM(items[n - 1]);
      WellFormedTail(items, n);
      if less >= 0 {
        CutIs(items[n..], less);
      }
      ExtendSkip(items, width);
    } else {
      WellFormedTail(items, 1);
      var less := width - |Written(items[0])|;
      if less >= 0 {
        CutIs(items[1..], less);
      }
      ExtendCounted(items, width);
    }
  }

  lemma WellFormedTail(items: seq<Item>, k: nat)
    requires AllWellFormed(items) && k <= |items|
    ensures AllWellFormed(items[k..])
  {
  }

  lemma CutNothing(items: seq<Item>, width: int)
    requires items == [] || width <= 0
    ensures IsCut(items, width, CutOf(items, width))
  {
    FrontEnds(WrittenAll(items), width);
    assert items[..0] == [];
  }

  lemma ExtendOne(items: seq<Item>, width: int)
    requires items != [] && AllWellFormed(items) && items[0].Glyph? && width > 0
    requires IsCut(items[1..], width - 1, CutOf(items[1..], width - 1))
    ensures IsCut(items, width, CutOf(items, width))
  {
    hide *;
    CutOne(items, width);
    CutOfOne(items, width);
    CutLonger(items, 1, width, CutOf(items[1..], width - 1), width - 1, 0, 0);
  }

  lemma ExtendSkip(items: seq<Item>, width: int)
    requires items != [] && AllWellFormed(items) && !items[0].Glyph? && width > 0 && Skipped(items) > 0
    requires var n := Skipped(items);
             var less := width - AfterM(items[n - 1]);
             less >= 0 ==> IsCut(items[n..], less, CutOf(items[n..], less))
    ensures IsCut(items, width, CutOf(items, width))
  {
    hide *;
    var n := Skipped(items);
    var last, tail := Written(items[n - 1]), AfterM(items[n - 1]);
    FrontSkips(items, width);
    CutOfSkip(items, width);
    if width < tail {
      BreaksOff(items[n - 1]);
      assert WellFormed(items[n - 1]) by { WellFormedAt(items, n - 1); }
      PartOf(items[n - 1], |last| - tail + width);
      if IsCommandPart(last[..|last| - tail + width]) {
        CommandAt(items, n - 1);
      }
      CutInside(items, n - 1, width, last[..|last| - tail + width], |TextOf(items[..n - 1])| + |last| - tail);
    } else {
      CutLonger(items, n, width, CutOf(items[n..], width - tail), width - tail, |TextOf(items[..n])|, tail);
    }
  }

  lemma WellFormedAt(items: seq<Item>, i: nat)
    requires AllWellFormed(items) && i < |items|
    ensures WellFormed(items[i])
  {
  }

  lemma CommandAt(items: seq<Item>, i: nat)
    requires i < |items| && items[i].Command?
    ensures HasCommand(items)
  {
  }

  /** Only a sequence can be broken off. */
  lemma BreaksOff(item: Item)
    ensures item.Glyph? && EndsSkip(item) ==> AfterM(item) == 0
  {
  }

  lemma ExtendCounted(items: seq<Item>, width: int)
    requires items != [] && AllWellFormed(items) && !items[0].Glyph? && width > 0 && Skipped(items) == 0
    requires var less := width - |Written(items[0])|; less >= 0 ==> IsCut(items[1..], less, CutOf(items[1..], less))
    ensures IsCut(items, width, CutOf(items, width))
  {
    hide *;
    SkipIs(items);
    CutOfCounted(items, width);
    CountedFront(items, width);
    if width < |Written(items[0])| {
      PartOf(items[0], width);
      if IsCommandPart(Written(items[0])[..width]) {
        CommandAt(items, 0);
      }
      CutInside(items, 0, width, Written(items[0])[..width], 0);
    } else {
      var less := width - |Written(items[0])|;
      CutLonger(items, 1, width, CutOf(items[1..], less), less, 0, |Written(items[0])|);
    }
  }

  lemma CutInside(items: seq<Item>, kept: nat, width: nat, part: string, swallowed: nat)
    requires kept <= |items| && Front(WrittenAll(items), width) == WrittenAll(items[..kept]) + part
    requires IsPart(part) && (IsCommandPart(part) ==> HasCommand(items))
    requires |TextOf(items[..kept])| + |part| == width + swallowed
    ensures IsCut(items, width, Cut(kept, part, width, swallowed, 0))
  {
    hide Front, IsPart, IsCommandPart, HasCommand, WrittenAll, TextOf;
  }

  lemma CutOfOne(items: seq<Item>, width: int)
    requires items != [] && items[0].Glyph? && width > 0
    ensures var rest := CutOf(items[1..], width - 1);
            CutOf(items, width) == rest.(kept := rest.kept + 1, charged := rest.charged + 1)
  {
  }

  lemma CutOfSkip(items: seq<Item>, width: int)
    requires items != [] && !items[0].Glyph? && width > 0 && Skipped(items) > 0
    ensures var n := Skipped(items);
            var last, tail := Written(items[n - 1]), AfterM(items[n - 1]);
            if width < tail then
              CutOf(items, width)
              == Cut(n - 1, last[..|last| - tail + width], width, |TextOf(items[..n - 1])| + |last| - tail, 0)
            else
              var rest := CutOf(items[n..], width - tail);
              CutOf(items, width) == Cut(rest.kept + n, rest.part, rest.charged + tail,
                                         rest.swallowed + |TextOf(items[..n])|, rest.counted + tail)
  {
    hide Skipped, AfterM, Written, TextOf;
  }

  lemma CutOfCounted(items: seq<Item>, width: int)
    requires items != [] && !items[0].Glyph? && width > 0 && Skipped(items) == 0
    ensures var first := Written(items[0]);
            if width < |first| then CutOf(items, width) == Cut(0, first[..width], width, 0, 0)
            else
              var rest := CutOf(items[1..], width - |first|);
              CutOf(items, width) == rest.(kept := rest.kept + 1, charged := rest.charged + |first|,
                                           counted := rest.counted + |first|)
  {
  }

  lemma CountedFront(items: seq<Item>, width: int)
    requires items != [] && AllWellFormed(items) && !items[0].Glyph? && width > 0
    requires IndexOfM(WrittenAll(items)) < 0
    ensures var first := Written(items[0]);
            && items[..0] == [] && WrittenAll([]) == [] && TextOf([]) == []
            && (width < |first| ==> Front(WrittenAll(items), width) == WrittenAll([]) + first[..width])
            && (width >= |first| ==>
                  Front(WrittenAll(items), width)
                  == WrittenAll(items[..1]) + Front(WrittenAll(items[1..]), width - |first|))
            && |TextOf(items[..1])| == 0 && WellFormed(items[0])
  {
    var first, more := Written(items[0]), WrittenAll(items[1..]);
    WrittenFirst(items);
    assert WellFormed(items[0]);
    FrontCounts(items[0], more, width);
    assert items[..1] == [items[0]];
    WrittenOne(items[0]);
    FrontEnds(more, 0);
    assert WrittenAll([]) == [] && TextOf([]) == [];
    hide Front, WrittenAll, TextOf;
    assert first[..|first|] == first && first + [] == first;
    assert width < |first| ==> [] + first[..width] == first[..width];
  }

  lemma CutOne(items: seq<Item>, width: int)
    requires items != [] && AllWellFormed(items) && items[0].Glyph? && width > 0
    ensures Front(WrittenAll(items), width) == WrittenAll(items[..1]) + Front(WrittenAll(items[1..]), width - 1)
    ensures |TextOf(items[..1])| == 1
  {
    var first, more := Written(items[0]), WrittenAll(items[1..]);
    assert WellFormed(items[0]);
    assert items[..1] == [items[0]];
    WrittenOne(items[0]);
    FrontSteps(first + more, width);
    assert (first + more)[1..] == more;
  }

  // ---------------------------------------------------------------- the exact width

  lemma PartIsVisible(part: string, suffix: string)
    requires IsPart(part) && ESC !in suffix && (IsCommandPart(part) ==> BEL !in suffix)
    ensures StripAnsi(part + RESET + suffix) == part + suffix
  {
    ResetIsInvisible(suffix);
    Associates(part, RESET, suffix);
    if part == [] {
      assert part + (RESET + suffix) == RESET + suffix && part + suffix == suffix;
    } else {
      var s := part + (RESET + suffix);
      assert s[|part|] == ESC;
      assert SequenceLength(s) == 0 by {
        PartIsNoSequence(part, RESET + suffix);
      }
      assert s[1..] == part[1..] + (RESET + suffix);
      PlainInFront(part[1..], RESET + suffix);
      hide StripAnsi;
      Associates([ESC], part[1..], suffix);
      assert part == [ESC] + part[1..];
      StripFirst(s);
    }
  }

  lemma StripFirst(s: string)
    requires s != [] && SequenceLength(s) == 0
    ensures StripAnsi(s) == [s[0]] + StripAnsi(s[1..])
  {
  }

  lemma PartIsNoSequence(part: string, rest: string)
    requires IsPart(part) && part != [] && rest != [] && rest[0] == ESC && (IsCommandPart(part) ==> BEL !in rest)
    ensures SequenceLength(part + rest) == 0
    ensures ESC !in part[1..]
  {
    var s := part + rest;
    assert forall k :: 2 <= k < |part| ==> part[k] == part[2..][k - 2];
    assert s[|part|] == ESC;
    if IsCommandPart(part) {
      assert forall k :: 2 <= k < |s| ==> s[k] == if k < |part| then part[2..][k - 2] else rest[k - |part|];
    } else if |part| > 1 {
      assert SkipDigits(s, 2) == |part|;
    }
  }

  /** The suffix begins no sequence and ends no system command. */
  predicate PlainSuffix(items: seq<Item>, suffix: string) {
    ESC !in suffix && (BEL in suffix ==> !HasCommand(items))
  }

  /** The exact width of cut text: what the loop counted, and what it skipped, less what was no visible character. */
  lemma CutWidth(items: seq<Item>, maxWidth: int, suffix: string)
    requires AllWellFormed(items) && PlainSuffix(items, suffix) && |TextOf(items)| > maxWidth
    ensures var c := CutOf(items, maxWidth - |suffix|);
            VisibleLength(Truncated(WrittenAll(items), maxWidth, suffix)) + c.counted
            == c.charged + c.swallowed + |suffix|
  {
    hide StripAnsi, Front, WrittenAll, TextOf, CutOf, IsPart, IsCommandPart, HasCommand, AllWellFormed;
    var target := maxWidth - |suffix|;
    var c := CutOf(items, target);
    WidthOf(items);
    CutFacts(items, target);
    PrefixShows(items[..c.kept], c.part, suffix);
    assert |TextOf(items[..c.kept]) + c.part + suffix| == |TextOf(items[..c.kept])| + |c.part| + |suffix|;
  }

  lemma CutFacts(items: seq<Item>, width: int)
    requires AllWellFormed(items)
    ensures var c := CutOf(items, width);
            && c.kept <= |items| && c.charged <= (if width > 0 then width else 0)
            && AllWellFormed(items[..c.kept]) && IsPart(c.part) && (IsCommandPart(c.part) ==> HasCommand(items))
            && Front(WrittenAll(items), width) == WrittenAll(items[..c.kept]) + c.part
            && |TextOf(items[..c.kept])| + |c.part| + c.counted == c.charged + c.swallowed
            && (c.charged < width ==> |TextOf(items)| + |c.part| + c.counted == c.charged + c.swallowed)
  {
    CutIs(items, width);
    hide CutOf, Front, WrittenAll, TextOf, IsPart, IsCommandPart, HasCommand;
    var c := CutOf(items, width);
    assert c.kept == |items| ==> items[..c.kept] == items;
  }

  lemma PrefixShows(items: seq<Item>, part: string, suffix: string)
    requires AllWellFormed(items) && IsPart(part) && ESC !in suffix && (IsCommandPart(part) ==> BEL !in suffix)
    ensures StripAnsi(WrittenAll(items) + part + RESET + suffix) == TextOf(items) + part + suffix
  {
    PartIsVisible(part, suffix);
    StyledIsVisible(items, part + RESET + suffix);
    hide StripAnsi, WrittenAll, TextOf, IsPart, IsCommandPart, AllWellFormed;
    var head := WrittenAll(items);
    Associates(TextOf(items), part, suffix);
    Associates(head, part + RESET, suffix);
    Associates(head, part, RESET);
  }

  /**
   Cut text keeps within the width if and only if the suffix fits, the loop reached its target, and
   it skipped no more characters than it counted of sequences.
   */
  lemma TruncatedFitsIff(items: seq<Item>, maxWidth: int, suffix: string)
    requires AllWellFormed(items) && PlainSuffix(items, suffix)
    ensures var c := CutOf(items, maxWidth - |suffix|);
            VisibleLength(Truncated(WrittenAll(items), maxWidth, suffix)) <= maxWidth
            <==> |TextOf(items)| <= maxWidth
                 || (|suffix| <= maxWidth && c.charged == maxWidth - |suffix| && c.swallowed <= c.counted)
  {
    hide StripAnsi, Front, WrittenAll, TextOf, CutOf, IsPart, IsCommandPart, HasCommand, AllWellFormed;
    WidthOf(items);
    CutFacts(items, maxWidth - |suffix|);
    if |TextOf(items)| > maxWidth {
      CutWidth(items, maxWidth, suffix);
    }
  }

  // ---------------------------------------------------------------- one sequence

  function Glyphs(s: string): (items: seq<Item>)
    ensures |items| == |s|
  {
    seq(|s|, i requires 0 <= i < |s| => Glyph(s[i]))
  }

  lemma {:induction false} GlyphsAre(s: string)
    ensures WrittenAll(Glyphs(s)) == s && TextOf(Glyphs(s)) == s
  {
    if s != [] {
      GlyphsAre(s[1..]);
      WrittenFirst(Glyphs(s));
      assert Glyphs(s)[1..] == Glyphs(s[1..]) && s == [s[0]] + s[1..];
    }
  }

  lemma NothingCut(items: seq<Item>, width: int)
    ensures items == [] || width <= 0 ==> CutOf(items, width) == Cut(0, [], 0, 0, 0)
  {
  }

  lemma {:induction false} CutGlyphs(s: string, items: seq<Item>, width: int)
    ensures var c, rest := CutOf(Glyphs(s) + items, width), CutOf(items, width - |s|);
            if width <= |s| then c.charged == (if width > 0 then width else 0) && c.swallowed == c.counted == 0
            else c.charged == rest.charged + |s| && c.swallowed == rest.swallowed && c.counted == rest.counted
    decreases |s|
  {
    hide *;
    var whole := Glyphs(s) + items;
    GlyphsFirst(s, items);
    if s == [] {
      NothingCut(items, width);
    } else if width > 0 {
      CutGlyphs(s[1..], items, width - 1);
      CutOfOne(whole, width);
    } else {
      NothingCut(whole, width);
    }
  }

  lemma GlyphsFirst(s: string, items: seq<Item>)
    ensures var whole := Glyphs(s) + items;
            if s == [] then whole == items
            else whole != [] && whole[0] == Glyph(s[0]) && whole[1..] == Glyphs(s[1..]) + items
  {
  }

  lemma GlyphsSlice(s: string, n: nat)
    requires n <= |s|
    ensures Glyphs(s)[..n] == Glyphs(s[..n]) && Glyphs(s)[n..] == Glyphs(s[n..])
  {
  }

  lemma SkippedGlyphs(s: string)
    ensures var n := Skipped(Glyphs(s)); (n > 0 <==> 'm' in s) && (n > 0 ==> Glyphs(s)[n - 1] == Glyph('m'))
  {
    var n := Skipped(Glyphs(s));
    if n > 0 {
      assert Glyphs(s)[n - 1] == Glyph(s[n - 1]) && EndsSkip(Glyph(s[n - 1]));
    } else {
      forall i | 0 <= i < |s|
        ensures s[i] != 'm'
      {
        assert !EndsSkip(Glyphs(s)[i]) && Glyphs(s)[i] == Glyph(s[i]);
      }
    }
  }

  /** One sequence between plain text. */
  function Around(a: string, item: Item, b: string): seq<Item> {
    Glyphs(a) + ([item] + Glyphs(b))
  }

  lemma AroundIs(a: string, item: Item, b: string)
    requires !item.Glyph? && WellFormed(item) && ESC !in a && ESC !in b
    ensures AllWellFormed(Around(a, item, b))
    ensures WrittenAll(Around(a, item, b)) == a + Written(item) + b && TextOf(Around(a, item, b)) == a + b
    ensures HasCommand(Around(a, item, b)) <==> item.Command?
  {
    AroundFormed(a, item, b);
    hide WrittenAll, TextOf, AllWellFormed, HasCommand, Written, Glyphs;
    var front, rest := Glyphs(a), [item] + Glyphs(b);
    GlyphsAre(a);
    GlyphsAre(b);
    WrittenSplit(front + rest, |front|);
    assert (front + rest)[..|front|] == front && (front + rest)[|front|..] == rest;
    WrittenFirst(rest);
    assert rest[1..] == Glyphs(b) && [] + TextOf(Glyphs(b)) == TextOf(Glyphs(b));
    Associates(a, Written(item), b);
  }

  lemma AroundFormed(a: string, item: Item, b: string)
    requires WellFormed(item) && ESC !in a && ESC !in b
    ensures AllWellFormed(Around(a, item, b))
    ensures HasCommand(Around(a, item, b)) <==> item.Command?
  {
    assert Around(a, item, b)[|a|] == item;
  }

  /**
   Text with one sequence of any kind, too wide and with a suffix that fits, stays too wide if and only
   if the cut falls after the sequence begins and then, when the sequence holds an 'm', before as many
   characters as follow it there, or else an 'm' follows the sequence.
   */
  lemma OneSequenceOverflowsIff(a: string, item: Item, b: string, maxWidth: int, suffix: string)
    requires !item.Glyph? && WellFormed(item) && ESC !in a && ESC !in b
    requires PlainSuffix([item], suffix) && |suffix| <= maxWidth < |a| + |b|
    ensures var target := maxWidth - |suffix|;
            VisibleLength(Truncated(a + Written(item) + b, maxWidth, suffix)) > maxWidth
            <==> target > |a| && if EndsSkip(item) then target - |a| < AfterM(item) else 'm' in b
  {
    var items, target := Around(a, item, b), maxWidth - |suffix|;
    hide *;
    AroundIs(a, item, b);
    SuffixStaysPlain(a, item, b, suffix);
    TruncatedFitsIff(items, maxWidth, suffix);
    OneSequenceCharged(a, item, b, target);
    assert |a + b| == |a| + |b|;
  }

  lemma SuffixStaysPlain(a: string, item: Item, b: string, suffix: string)
    requires PlainSuffix([item], suffix)
    requires HasCommand(Around(a, item, b)) <==> item.Command?
    ensures PlainSuffix(Around(a, item, b), suffix)
  {
    hide Around;
    assert [item][0] == item;
  }

  lemma OneSequenceCharged(a: string, item: Item, b: string, target: nat)
    requires !item.Glyph? && WellFormed(item) && target < |a| + |b|
    ensures var c := CutOf(Around(a, item, b), target);
            !(c.charged == target && c.swallowed <= c.counted)
            <==> target > |a| && if EndsSkip(item) then target - |a| < AfterM(item) else 'm' in b
  {
    hide *;
    AroundFront(a, item, b, target);
    if target > |a| {
      OneSequenceCut(item, b, target - |a|);
    }
  }

  lemma AroundFront(a: string, item: Item, b: string, target: nat)
    ensures var c, rest := CutOf(Around(a, item, b), target), CutOf([item] + Glyphs(b), target - |a|);
            if target <= |a| then c.charged == target && c.swallowed == c.counted == 0
            else c.charged == rest.charged + |a| && c.swallowed == rest.swallowed && c.counted == rest.counted
  {
    hide CutOf, Glyphs;
    CutGlyphs(a, [item] + Glyphs(b), target);
  }

  lemma OneSequenceCut(item: Item, b: string, width: nat)
    requires !item.Glyph? && WellFormed(item) && 0 < width
    ensures var c := CutOf([item] + Glyphs(b), width);
            if (if EndsSkip(item) then width < AfterM(item) else 'm' in b) then c.swallowed > c.counted
            else c.swallowed <= c.counted && (width <= |b| ==> c.charged == width)
  {
    var items := [item] + Glyphs(b);
    assert items[0] == item && items[1..] == Glyphs(b);
    if EndsSkip(item) {
      CutAfterM(item, b, width);
    } else if 'm' in b {
      CutThroughM(item, b, width);
    } else {
      SkippedGlyphs(b);
      CutOfCounted(items, width);
      hide CutOf, Glyphs, Skipped, Written;
      if width >= |Written(item)| {
        assert Glyphs(b) == Glyphs(b) + [];
        CutGlyphs(b, [], width - |Written(item)|);
        NothingCut([], width - |Written(item)| - |b|);
      }
    }
  }

  lemma CutAfterM(item: Item, b: string, width: nat)
    requires !item.Glyph? && WellFormed(item) && EndsSkip(item) && 0 < width
    ensures var c := CutOf([item] + Glyphs(b), width);
            if width < AfterM(item) then c.swallowed > c.counted
            else c.swallowed <= c.counted && (width <= |b| ==> c.charged == width)
  {
    var items := [item] + Glyphs(b);
    SkipsInside(item, Glyphs(b));
    hide *;
    CutOfSkip(items, width);
    if width >= AfterM(item) {
      CutGlyphs(b, [], width - AfterM(item));
      NothingCut([], width - AfterM(item) - |b|);
    } else {
      TailIsPlain(item);
    }
  }

  lemma SkipsInside(item: Item, more: seq<Item>)
    requires !item.Glyph? && EndsSkip(item)
    ensures var items := [item] + more;
            && items[0] == item && Skipped(items) == 1 && items[1..] == more + [] && |TextOf(items[..1])| == 0
            && |TextOf(items[..0])| == 0
  {
    var items := [item] + more;
    WrittenOne(item);
    assert items[..1] == [item] && items[..0] == [];
  }

  lemma CutThroughM(item: Item, b: string, width: nat)
    requires !item.Glyph? && WellFormed(item) && !EndsSkip(item) && 'm' in b && 0 < width
    ensures var c := CutOf([item] + Glyphs(b), width); c.swallowed > c.counted
  {
    var items := [item] + Glyphs(b);
    SkipsThrough(item, b);
    hide *;
    CutOfSkip(items, width);
    var k := Skipped(items) - 1;
    CutGlyphs(b[k..], [], width);
    NothingCut([], width - |b[k..]|);
  }

  lemma SkipsThrough(item: Item, b: string)
    requires !item.Glyph? && !EndsSkip(item) && 'm' in b
    ensures var items := [item] + Glyphs(b);
            var n := Skipped(items);
            && items[0] == item && 1 < n <= |b| + 1 && AfterM(items[n - 1]) == 0
            && items[n..] == Glyphs(b[n - 1..]) + [] && |TextOf(items[..n])| == n - 1
  {
    var items, k := [item] + Glyphs(b), Skipped(Glyphs(b));
    SkippedGlyphs(b);
    SkippedBehind(item, Glyphs(b));
    hide Glyphs, Skipped, TextOf, Written, AfterM;
    MIsLast();
    GlyphsSlice(b, k);
    GlyphsAre(b[..k]);
    TextBehind(item, Glyphs(b), k);
    assert Glyphs(b[k..]) + [] == Glyphs(b[k..]);
  }

  lemma SkippedBehind(item: Item, more: seq<Item>)
    requires !EndsSkip(item)
    ensures Skipped([item] + more) == if Skipped(more) == 0 then 0 else Skipped(more) + 1
  {
    assert ([item] + more)[1..] == more;
  }

  lemma TextBehind(item: Item, more: seq<Item>, k: nat)
    requires !item.Glyph? && 0 < k <= |more|
    ensures var items := [item] + more;
            && items[0] == item && items[k] == more[k - 1] && items[k + 1..] == more[k..]
            && TextOf(items[..k + 1]) == TextOf(more[..k])
  {
    var taken := ([item] + more)[..k + 1];
    assert taken[0] == item && taken[1..] == more[..k];
    WrittenFirst(taken);
    hide TextOf;
    assert [] + TextOf(more[..k]) == TextOf(more[..k]);
  }

  lemma MIsLast()
    ensures AfterM(Glyph('m')) == 0
  {
  }
}
