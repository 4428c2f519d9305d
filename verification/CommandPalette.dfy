/**
 The command palette's search: which actions match what was typed, and in which order they are listed.
 */
module FuzzyMatching {
  import opened Wrappers

  datatype Action = Action(id: string, name: string, description: Option<string>, category: Option<string>)

  /** Lower-casing is the platform's; it is a parameter here. */
  type Lower = string -> string

  function OrEmpty(s: Option<string>): string {
    if s.Some? then s.value else []
  }

  // ---------------------------------------------------------------- matching, by definition

  predicate StandsAt(text: string, query: string, i: nat) {
    i + |query| <= |text| && text[i..i + |query|] == query
  }

  predicate Includes(text: string, query: string) {
    exists i :: 0 <= i <= |text| - |query| && StandsAt(text, query, i)
  }

  predicate Increasing(positions: seq<nat>) {
    forall i, j :: 0 <= i < j < |positions| ==> positions[i] < positions[j]
  }

  predicate PicksOut(positions: seq<nat>, text: string, query: string) {
    && |positions| == |query| && Increasing(positions)
    && forall k :: 0 <= k < |query| ==> positions[k] < |text| && text[positions[k]] == query[k]
  }

  /** The characters of the query stand in the text, in order. */
  ghost predicate IsSubsequence(text: string, query: string) {
    exists positions :: PicksOut(positions, text, query)
  }

  // ---------------------------------------------------------------- the score

  /** What the character at `i` earns when it matches character `at` of the query. */
  function Points(name: string, query: string, i: nat, at: nat): (points: nat)
    requires i < |name| && at < |query|
    ensures 10 <= points <= 18
  {
    10 + (if i > 0 && at > 0 && name[i - 1] == query[at - 1] then 5 else 0)
       + (if i == 0 || name[i - 1] == ' ' || name[i - 1] == ':' then 3 else 0)
  }

  /** The points from place `i` of the label on, when `at` characters have matched; nothing unless all match. */
  function Scan(name: string, query: string, i: nat, at: nat): Option<nat>
    requires i <= |name| && at <= |query|
    decreases |name| - i
  {
    if at == |query| then Some(0)
    else if i == |name| then None
    else if name[i] == query[at] then
      match Scan(name, query, i + 1, at + 1)
      case None => None
      case Some(rest) => Some(Points(name, query, i, at) + rest)
    else Scan(name, query, i + 1, at)
  }

  function Score(lower: Lower, action: Action, query: string): nat {
    var name := lower(action.name);
    if Includes(name, query) then 100
    else if Includes(lower(OrEmpty(action.description)), query) then 50
    else if Includes(lower(OrEmpty(action.category)), query) then 30
    else
      match Scan(name, query, 0, 0)
      case None => 0
      case Some(points) => points
  }

  method FuzzyScore(lower: Lower, action: Action, query: string) returns (score: nat)
    ensures score == Score(lower, action, query)
  {
    var name := lower(action.name);
    if Includes(name, query) {
      return 100;
    }
    if Includes(lower(OrEmpty(action.description)), query) {
      return 50;
    }
    if Includes(lower(OrEmpty(action.category)), query) {
      return 30;
    }
    score := 0;
    var at := 0;
    var i := 0;
    while i < |name| && at < |query|
      invariant i <= |name| && at <= |query|
      invariant match Scan(name, query, i, at)
                case None => Scan(name, query, 0, 0) == None
                case Some(rest) => Scan(name, query, 0, 0) == Some(score + rest)
    {
      if name[i] == query[at] {
        score := score + 10;
        if i > 0 && at > 0 && name[i - 1] == query[at - 1] {
          score := score + 5;
        }
        if i == 0 || name[i - 1] == ' ' || name[i - 1] == ':' {
          score := score + 3;
        }
        at := at + 1;
      }
      i := i + 1;
    }
    if at != |query| {
      score := 0;
    }
  }

  // ---------------------------------------------------------------- the scan finds every match

  /** A complete scan has picked out the query, and earns 10 to 18 points a character. */
  lemma {:induction false} ScanPicks(name: string, query: string, i: nat, at: nat) returns (positions: seq<nat>)
    requires i <= |name| && at <= |query| && Scan(name, query, i, at).Some?
    ensures PicksOut(positions, name, query[at..]) && forall k :: 0 <= k < |positions| ==> positions[k] >= i
    ensures 10 * (|query| - at) <= Scan(name, query, i, at).value <= 18 * (|query| - at)
    decreases |name| - i
  {
    if at == |query| {
      positions := [];
    } else if name[i] == query[at] {
      var rest := ScanPicks(name, query, i + 1, at + 1);
      positions := [i] + rest;
    } else {
      positions := ScanPicks(name, query, i + 1, at);
    }
  }

  /** Taking the first character that fits never misses a match. */
  lemma {:induction false} ScanMissesNone(name: string, query: string, i: nat, at: nat, positions: seq<nat>)
    requires i <= |name| && at <= |query|
    requires PicksOut(positions, name, query[at..]) && forall k :: 0 <= k < |positions| ==> positions[k] >= i
    ensures Scan(name, query, i, at).Some?
    decreases |name| - i
  {
    if at < |query| {
      assert name[positions[0]] == query[at..][0] && positions[0] >= i;
      if name[i] == query[at] {
        var rest := positions[1..];
        forall k | 0 <= k < |rest| ensures rest[k] >= i + 1 && rest[k] < |name| && name[rest[k]] == query[at + 1..][k] {
          assert rest[k] == positions[k + 1] && query[at + 1..][k] == query[at..][k + 1];
        }
        ScanMissesNone(name, query, i + 1, at + 1, rest);
      } else {
        forall k | 0 <= k < |positions| ensures positions[k] >= i + 1 {
          assert positions[0] > i;
        }
        ScanMissesNone(name, query, i + 1, at, positions);
      }
    }
  }

  lemma ScanIff(name: string, query: string)
    ensures Scan(name, query, 0, 0).Some? <==> IsSubsequence(name, query)
  {
    assert query[0..] == query;
    if Scan(name, query, 0, 0).Some? {
      var positions := ScanPicks(name, query, 0, 0);
    }
    if IsSubsequence(name, query) {
      var positions :| PicksOut(positions, name, query);
      ScanMissesNone(name, query, 0, 0, positions);
    }
  }

  lemma IncludedIsSubsequence(text: string, query: string)
    requires Includes(text, query)
    ensures IsSubsequence(text, query)
  {
    var i :| 0 <= i <= |text| - |query| && StandsAt(text, query, i);
    var positions: seq<nat> := seq(|query|, k => i + k);
    assert PicksOut(positions, text, query);
  }

  /** An action matches, by definition. */
  ghost predicate Matches(lower: Lower, action: Action, query: string) {
    || IsSubsequence(lower(action.name), query)
    || Includes(lower(OrEmpty(action.description)), query)
    || Includes(lower(OrEmpty(action.category)), query)
  }

  lemma ScorePositiveIff(lower: Lower, action: Action, query: string)
    ensures Score(lower, action, query) > 0 <==> Matches(lower, action, query)
  {
    var name := lower(action.name);
    ScanIff(name, query);
    if Includes(name, query) {
      IncludedIsSubsequence(name, query);
    } else {
      assert query == [] ==> StandsAt(name, query, 0);
      if Scan(name, query, 0, 0).Some? {
        var positions := ScanPicks(name, query, 0, 0);
      }
    }
  }

  // ---------------------------------------------------------------- is a whole match the best match?

  ghost predicate OnlyScattered(lower: Lower, action: Action, query: string) {
    && IsSubsequence(lower(action.name), query)
    && !Includes(lower(action.name), query)
    && !Includes(lower(OrEmpty(action.description)), query)
    && !Includes(lower(OrEmpty(action.category)), query)
  }

  /** The leftmost way to pick the query out of the text: no other way has any character earlier. */
  ghost predicate Leftmost(positions: seq<nat>, text: string, query: string) {
    PicksOut(positions, text, query) && forall others :: PicksOut(others, text, query) ==> NoneAfter(positions, others)
  }

  predicate NoneAfter(positions: seq<nat>, others: seq<nat>)
    requires |positions| == |others|
  {
    forall k :: 0 <= k < |positions| ==> positions[k] <= others[k]
  }

  /** How many characters, from the `at`-th on, stand right after a character equal to the query's one before. */
  function Repeats(name: string, query: string, positions: seq<nat>, at: nat): (n: nat)
    requires PicksOut(positions, name, query) && at <= |query|
    ensures n <= |query| - at && (at == 0 < |query| ==> n < |query|)
    decreases |query| - at
  {
    if at == |query| then 0
    else
      (if at > 0 && positions[at] > 0 && name[positions[at] - 1] == query[at - 1] then 1 else 0)
      + Repeats(name, query, positions, at + 1)
  }

  /** How many characters, from the `at`-th on, stand at the start of the label or after a space or colon. */
  function WordStarts(name: string, query: string, positions: seq<nat>, at: nat): (n: nat)
    requires PicksOut(positions, name, query) && at <= |query|
    ensures n <= |query| - at
    decreases |query| - at
  {
    if at == |query| then 0
    else
      var i := positions[at];
      (if i == 0 || name[i - 1] == ' ' || name[i - 1] == ':' then 1 else 0)
      + WordStarts(name, query, positions, at + 1)
  }

  lemma {:induction false} LeftmostFrom(name: string, query: string, i: nat, at: nat) returns (positions: seq<nat>)
    requires i <= |name| && at <= |query| && Scan(name, query, i, at).Some?
    ensures PicksOut(positions, name, query[at..]) && forall k :: 0 <= k < |positions| ==> positions[k] >= i
    ensures forall others :: PicksOut(others, name, query[at..]) && (forall k :: 0 <= k < |others| ==> others[k] >= i)
              ==> NoneAfter(positions, others)
    decreases |name| - i
  {
    if at == |query| {
      positions := [];
    } else if name[i] == query[at] {
      var rest := LeftmostFrom(name, query, i + 1, at + 1);
      positions := [i] + rest;
      forall others | PicksOut(others, name, query[at..]) && forall k :: 0 <= k < |others| ==> others[k] >= i
        ensures NoneAfter(positions, others)
      {
        TailPicks(others, name, query, at);
      }
    } else {
      positions := LeftmostFrom(name, query, i + 1, at);
      forall others | PicksOut(others, name, query[at..]) && forall k :: 0 <= k < |others| ==> others[k] >= i
        ensures NoneAfter(positions, others)
      {
        assert name[others[0]] == query[at..][0];
      }
    }
  }

  lemma TailPicks(positions: seq<nat>, name: string, query: string, at: nat)
    requires at < |query| && PicksOut(positions, name, query[at..])
    ensures PicksOut(positions[1..], name, query[at + 1..])
    ensures forall k :: 0 <= k < |positions[1..]| ==> positions[1..][k] >= positions[0] + 1
  {
    var rest := positions[1..];
    forall k | 0 <= k < |rest|
      ensures rest[k] < |name| && name[rest[k]] == query[at + 1..][k]
    {
      assert rest[k] == positions[k + 1] && query[at + 1..][k] == query[at..][k + 1];
    }
  }

  /** Every subsequence has a leftmost way. */
  lemma LeftmostExists(name: string, query: string) returns (positions: seq<nat>)
    requires IsSubsequence(name, query)
    ensures Leftmost(positions, name, query)
  {
    ScanIff(name, query);
    assert query[0..] == query;
    positions := LeftmostFrom(name, query, 0, 0);
  }

  /** The scan takes the leftmost way, and earns its characters, its repeats and its word starts. */
  lemma {:induction false} ScanScores(name: string, query: string, i: nat, at: nat, positions: seq<nat>)
    requires i <= |name| && at <= |query| && Leftmost(positions, name, query)
    requires at < |query| ==> i <= positions[at]
    requires at > 0 ==> positions[at - 1] < i
    ensures Scan(name, query, i, at)
         == Some(10 * (|query| - at) + 5 * Repeats(name, query, positions, at)
                 + 3 * WordStarts(name, query, positions, at))
    decreases |name| - i
  {
    if at < |query| {
      if name[i] == query[at] {
        var earlier := positions[at := i];
        assert PicksOut(earlier, name, query);
        assert NoneAfter(positions, earlier) && earlier[at] == i;
        ScanScores(name, query, i + 1, at + 1, positions);
      } else {
        assert positions[at] != i;
        ScanScores(name, query, i + 1, at, positions);
      }
    }
  }

  /**
   A scattered match is at least as good as a whole one if and only if its characters, repeats and
   word starts earn it a hundred points.
   */
  lemma ScatteredWinsIff(lower: Lower, whole: Action, scattered: Action, query: string, positions: seq<nat>)
    requires Includes(lower(whole.name), query) && OnlyScattered(lower, scattered, query)
    requires Leftmost(positions, lower(scattered.name), query)
    ensures var name := lower(scattered.name);
            Score(lower, scattered, query) >= Score(lower, whole, query)
            <==> 10 * |query| + 5 * Repeats(name, query, positions, 0) + 3 * WordStarts(name, query, positions, 0) >= 100
  {
    ScanScores(lower(scattered.name), query, 0, 0, positions);
  }

  /** Where the query stands as a whole: in the label, else in the description, else in the category, else nowhere. */
  function WholeIn(lower: Lower, action: Action, query: string): (n: nat)
    ensures n <= 3
  {
    if Includes(lower(action.name), query) then 0
    else if Includes(lower(OrEmpty(action.description)), query) then 1
    else if Includes(lower(OrEmpty(action.category)), query) then 2
    else 3
  }

  /** The points of a whole match, and what a scattered one needs to be at least as good. */
  lemma ScatteredAgainstIff(lower: Lower, whole: Action, scattered: Action, query: string, positions: seq<nat>)
    requires WholeIn(lower, whole, query) < 3 && OnlyScattered(lower, scattered, query)
    requires Leftmost(positions, lower(scattered.name), query)
    ensures var name := lower(scattered.name);
            Score(lower, scattered, query) >= Score(lower, whole, query)
            <==> 10 * |query| + 5 * Repeats(name, query, positions, 0) + 3 * WordStarts(name, query, positions, 0)
                 >= [100, 50, 30][WholeIn(lower, whole, query)]
  {
    ScanScores(lower(scattered.name), query, 0, 0, positions);
  }

  /**
   Whatever the labels, whole matches win for queries of at most five characters, do not for ten, and
   lose for more.
   */
  lemma WholeAgainstScattered(lower: Lower, whole: Action, scattered: Action, query: string)
    requires Includes(lower(whole.name), query) && OnlyScattered(lower, scattered, query)
    ensures |query| <= 5 ==> Score(lower, scattered, query) < Score(lower, whole, query)
    ensures |query| >= 10 ==> Score(lower, scattered, query) >= Score(lower, whole, query)
    ensures |query| > 10 ==> Score(lower, scattered, query) > Score(lower, whole, query)
  {
    var positions := LeftmostExists(lower(scattered.name), query);
    ScanScores(lower(scattered.name), query, 0, 0, positions);
  }

  /** Lower-casing leaves colons and spaces alone. */
  ghost predicate KeepsMarks(lower: Lower) {
    forall s: string :: (forall i :: 0 <= i < |s| ==> s[i] == ':' || s[i] == ' ') ==> lower(s) == s
  }

  /** Every whole match of a query of length `n` beats every scattered one. */
  ghost predicate WholeAlwaysWins(lower: Lower, n: nat) {
    forall whole: Action, scattered: Action, query: string ::
      |query| == n && Includes(lower(whole.name), query) && OnlyScattered(lower, scattered, query)
      ==> Score(lower, scattered, query) < Score(lower, whole, query)
  }

  /** Whole matches always win for queries of at most five characters, and for no other length. */
  lemma WholeAlwaysWinsIff(lower: Lower, n: nat)
    requires KeepsMarks(lower)
    ensures WholeAlwaysWins(lower, n) <==> n <= 5
  {
    if n <= 5 {
      forall whole: Action, scattered: Action, query: string
        | |query| == n && Includes(lower(whole.name), query) && OnlyScattered(lower, scattered, query)
        ensures Score(lower, scattered, query) < Score(lower, whole, query)
      {
        WholeAgainstScattered(lower, whole, scattered, query);
      }
    } else {
      var whole, scattered, query := ScatteredCanWin(lower, n);
    }
  }

  /** Colons and spaces in turn, and the same with one space more after the first two. */
  function Marks(n: nat): (s: string)
    ensures |s| == n
  {
    seq(n, i => if i % 2 == 0 then ':' else ' ')
  }

  function SpacedMarks(n: nat): (s: string)
    requires n >= 2
    ensures |s| == n + 1
  {
    Marks(n)[..2] + [' '] + Marks(n)[2..]
  }

  lemma {:induction false} SpacedScan(n: nat, i: nat)
    requires n >= 6 && 3 <= i <= n + 1
    ensures Scan(SpacedMarks(n), Marks(n), i, i - 1) == Some(18 * (n - (i - 1)))
    decreases n - i
  {
    var name, query := SpacedMarks(n), Marks(n);
    if i <= n {
      assert name[i] == query[i - 1] && name[i - 1] == query[i - 2];
      assert Points(name, query, i, i - 1) == 18;
      SpacedScan(n, i + 1);
    }
  }

  /** For every length above five, a label that only holds the query scattered beats the query itself. */
  lemma ScatteredCanWin(lower: Lower, n: nat) returns (whole: Action, scattered: Action, query: string)
    requires KeepsMarks(lower) && n >= 6
    ensures |query| == n && Includes(lower(whole.name), query) && OnlyScattered(lower, scattered, query)
    ensures Score(lower, scattered, query) == 18 * n - 5 > 100 == Score(lower, whole, query)
  {
    query := Marks(n);
    var name := SpacedMarks(n);
    whole, scattered := Action("1", query, None, None), Action("2", name, None, None);
    assert lower(query) == query && lower(name) == name && lower([]) == [];
    assert StandsAt(query, query, 0);
    NotIncluded(n);
    SpacedScan(n, 3);
    assert name[0] == query[0] && name[1] == query[1] && name[2] != query[2];
    assert Scan(name, query, 2, 2) == Scan(name, query, 3, 2);
    assert Points(name, query, 1, 1) == 18 && Points(name, query, 0, 0) == 13;
    assert Scan(name, query, 1, 1) == Some(18 + 18 * (n - 2));
    assert Scan(name, query, 0, 0) == Some(13 + 18 + 18 * (n - 2));
    ScanIff(name, query);
  }

  lemma NotIncluded(n: nat)
    requires n >= 6
    ensures !Includes(SpacedMarks(n), Marks(n)) && !Includes([], Marks(n))
  {
    var name, query := SpacedMarks(n), Marks(n);
    forall i | 0 <= i <= |name| - |query|
      ensures !StandsAt(name, query, i)
    {
      assert i == 0 ==> name[i..i + n][2] != query[2];
      assert i == 1 ==> name[i..i + n][0] != query[0];
    }
  }

  // ---------------------------------------------------------------- the order

  function With(list: seq<Action>, key: Action -> nat, score: nat): seq<Action> {
    if list == [] then []
    else (if key(list[0]) == score then [list[0]] else []) + With(list[1..], key, score)
  }

  predicate Descending(list: seq<Action>, key: Action -> nat) {
    forall i, j :: 0 <= i < j < |list| ==> key(list[i]) >= key(list[j])
  }

  function Positive(list: seq<Action>, key: Action -> nat): seq<Action> {
    if list == [] then []
    else (if key(list[0]) > 0 then [list[0]] else []) + Positive(list[1..], key)
  }

  /** Puts an action before the first one that does not score higher. */
  function Insert(action: Action, sorted: seq<Action>, key: Action -> nat): seq<Action> {
    if sorted == [] || key(sorted[0]) <= key(action) then [action] + sorted
    else [sorted[0]] + Insert(action, sorted[1..], key)
  }

  /** A stable sort by descending score. */
  function Sort(list: seq<Action>, key: Action -> nat): seq<Action> {
    if list == [] then [] else Insert(list[0], Sort(list[1..], key), key)
  }

  function Filtered(lower: Lower, actions: seq<Action>, query: string): seq<Action> {
    if query == [] then actions
    else
      var key := (action: Action) => Score(lower, action, lower(query));
      Sort(Positive(actions, key), key)
  }

  /** The actions that score, best first, and those of one score in the order they were given. */
  ghost predicate Ranked(result: seq<Action>, actions: seq<Action>, key: Action -> nat) {
    && (forall i :: 0 <= i < |result| ==> key(result[i]) > 0)
    && Descending(result, key)
    && forall score: nat :: score > 0 ==> With(result, key, score) == With(actions, key, score)
  }

  lemma WithCons(first: Action, rest: seq<Action>, key: Action -> nat, score: nat)
    ensures With([first] + rest, key, score) == (if key(first) == score then [first] else []) + With(rest, key, score)
  {
  }

  lemma {:induction false} PositiveIs(list: seq<Action>, key: Action -> nat)
    ensures forall i :: 0 <= i < |Positive(list, key)| ==> key(Positive(list, key)[i]) > 0
  {
    if list != [] {
      PositiveIs(list[1..], key);
    }
  }

  lemma {:induction false} PositiveWith(list: seq<Action>, key: Action -> nat, score: nat)
    ensures score > 0 ==> With(Positive(list, key), key, score) == With(list, key, score)
  {
    hide With;
    if list != [] {
      var first, rest := list[0], Positive(list[1..], key);
      PositiveWith(list[1..], key, score);
      assert list == [first] + list[1..];
      WithCons(first, list[1..], key, score);
      if key(first) > 0 {
        WithCons(first, rest, key, score);
      } else {
        assert Positive(list, key) == rest;
      }
    }
  }

  lemma {:induction false} InsertWith(action: Action, sorted: seq<Action>, key: Action -> nat, score: nat)
    requires Descending(sorted, key)
    ensures With(Insert(action, sorted, key), key, score)
         == (if key(action) == score then [action] else []) + With(sorted, key, score)
  {
    hide With;
    if sorted == [] || key(sorted[0]) <= key(action) {
      WithCons(action, sorted, key, score);
    } else {
      var first, rest := sorted[0], sorted[1..];
      InsertWith(action, rest, key, score);
      WithCons(first, Insert(action, rest, key), key, score);
      assert sorted == [first] + rest;
      WithCons(first, rest, key, score);
      var tail := With(rest, key, score);
      assert [] + tail == tail && [] + ([action] + tail) == [action] + tail && [] + ([first] + tail) == [first] + tail;
    }
  }

  lemma {:induction false} InsertMembers(action: Action, sorted: seq<Action>, key: Action -> nat)
    ensures forall x :: x in Insert(action, sorted, key) <==> x == action || x in sorted
  {
    if sorted != [] && key(sorted[0]) > key(action) {
      InsertMembers(action, sorted[1..], key);
    }
  }

  lemma {:induction false} InsertDescends(action: Action, sorted: seq<Action>, key: Action -> nat)
    requires Descending(sorted, key)
    ensures Descending(Insert(action, sorted, key), key)
  {
    if sorted != [] && key(sorted[0]) > key(action) {
      InsertDescends(action, sorted[1..], key);
      InsertMembers(action, sorted[1..], key);
      var rest := Insert(action, sorted[1..], key);
      forall j | 0 <= j < |rest| ensures key(rest[j]) <= key(sorted[0]) {
        assert rest[j] in rest;
      }
    }
  }

  lemma {:induction false} SortWith(list: seq<Action>, key: Action -> nat, score: nat)
    ensures With(Sort(list, key), key, score) == With(list, key, score)
    ensures Descending(Sort(list, key), key)
    ensures forall action :: action in Sort(list, key) ==> action in list
  {
    if list != [] {
      SortWith(list[1..], key, score);
      InsertWith(list[0], Sort(list[1..], key), key, score);
      InsertMembers(list[0], Sort(list[1..], key), key);
      InsertDescends(list[0], Sort(list[1..], key), key);
    }
  }

  lemma {:induction false} NoneWith(list: seq<Action>, key: Action -> nat, score: nat)
    requires forall i :: 0 <= i < |list| ==> key(list[i]) < score
    ensures With(list, key, score) == []
  {
    if list != [] {
      NoneWith(list[1..], key, score);
    }
  }

  /** Two orders of the same actions are the same list. */
  lemma {:induction false} OneOrder(a: seq<Action>, b: seq<Action>, key: Action -> nat)
    requires Descending(a, key) && Descending(b, key)
    requires forall score: nat :: With(a, key, score) == With(b, key, score)
    ensures a == b
  {
    if a == [] || b == [] {
      assert a != [] ==> With(a, key, key(a[0])) != [];
      assert b != [] ==> With(b, key, key(b[0])) != [];
    } else {
      SameFirst(a, b, key);
      SameFirst(b, a, key);
      assert With(a, key, key(a[0]))[0] == a[0] && With(b, key, key(b[0]))[0] == b[0];
      forall score: nat ensures With(a[1..], key, score) == With(b[1..], key, score) {
        assert With(a, key, score) == With(b, key, score);
        TailWith(a, key, score);
        TailWith(b, key, score);
      }
      OneOrder(a[1..], b[1..], key);
      assert a == [a[0]] + a[1..] && b == [b[0]] + b[1..];
    }
  }

  lemma SameFirst(a: seq<Action>, b: seq<Action>, key: Action -> nat)
    requires a != [] && b != [] && Descending(b, key)
    requires With(a, key, key(a[0])) == With(b, key, key(a[0]))
    ensures key(a[0]) <= key(b[0])
  {
    if key(a[0]) > key(b[0]) {
      NoneWith(b, key, key(a[0]));
      assert false;
    }
  }

  lemma TailWith(list: seq<Action>, key: Action -> nat, score: nat)
    requires list != []
    ensures With(list[1..], key, score)
         == if key(list[0]) == score then With(list, key, score)[1..] else With(list, key, score)
  {
  }

  /**
   The filtered list of a query is the ranking of the actions by their scores, and nothing else is;
   without a query it is all of them.
   */
  lemma FilteredIff(lower: Lower, actions: seq<Action>, query: string, result: seq<Action>)
    ensures result == Filtered(lower, actions, query)
       <==> if query == [] then result == actions
            else Ranked(result, actions, (action: Action) => Score(lower, action, lower(query)))
  {
    var key := (action: Action) => Score(lower, action, lower(query));
    SortIsRanked(actions, key);
    if Ranked(result, actions, key) {
      RankedIsOne(result, Sort(Positive(actions, key), key), actions, key);
    }
  }

  lemma SortIsRanked(actions: seq<Action>, key: Action -> nat)
    ensures Ranked(Sort(Positive(actions, key), key), actions, key)
  {
    var kept := Positive(actions, key);
    forall score: nat | score > 0 ensures With(Sort(kept, key), key, score) == With(actions, key, score) {
      SortWith(kept, key, score);
      PositiveWith(actions, key, score);
    }
    SortWith(kept, key, 0);
    PositiveIs(actions, key);
    forall i | 0 <= i < |Sort(kept, key)| ensures key(Sort(kept, key)[i]) > 0 {
      assert Sort(kept, key)[i] in kept;
    }
  }

  lemma {:induction false} NoneAtZero(list: seq<Action>, key: Action -> nat)
    requires forall i :: 0 <= i < |list| ==> key(list[i]) > 0
    ensures With(list, key, 0) == []
  {
    if list != [] {
      NoneAtZero(list[1..], key);
    }
  }

  lemma RankedIsOne(a: seq<Action>, b: seq<Action>, actions: seq<Action>, key: Action -> nat)
    requires Ranked(a, actions, key) && Ranked(b, actions, key)
    ensures a == b
  {
    NoneAtZero(a, key);
    NoneAtZero(b, key);
    forall score: nat ensures With(a, key, score) == With(b, key, score) {
      assert score > 0 ==> With(a, key, score) == With(actions, key, score);
    }
    OneOrder(a, b, key);
  }

  /** An action is listed if and only if it matches. */
  lemma ListedIff(lower: Lower, actions: seq<Action>, query: string, action: Action)
    requires query != []
    ensures action in Filtered(lower, actions, query) <==> action in actions && Matches(lower, action, lower(query))
  {
    var key := (action: Action) => Score(lower, action, lower(query));
    var result := Filtered(lower, actions, query);
    FilteredIff(lower, actions, query, result);
    ScorePositiveIff(lower, action, lower(query));
    InWith(result, key, action);
    InWith(actions, key, action);
  }

  /** Among whole matches, one in a label is listed before one in a description, and that before one in a category. */
  lemma WholeMatchesInOrder(lower: Lower, actions: seq<Action>, query: string, i: nat, j: nat)
    requires query != [] && i < |Filtered(lower, actions, query)| && j < |Filtered(lower, actions, query)|
    requires var result := Filtered(lower, actions, query);
             WholeIn(lower, result[i], lower(query)) < WholeIn(lower, result[j], lower(query)) < 3
    ensures i < j
  {
    var result := Filtered(lower, actions, query);
    FilteredIff(lower, actions, query, result);
    hide Filtered, Includes;
    assert Score(lower, result[i], lower(query)) > Score(lower, result[j], lower(query));
  }

  lemma {:induction false} InWith(list: seq<Action>, key: Action -> nat, action: Action)
    ensures action in list <==> action in With(list, key, key(action))
  {
    if list != [] {
      InWith(list[1..], key, action);
    }
  }

  // ---------------------------------------------------------------- the palette

  class CommandPalette {
    var query: string
    var actions: seq<Action>
    var filtered: seq<Action>
    var selectedIndex: int

    constructor (actions: seq<Action>)
      ensures query == [] && this.actions == actions && filtered == [] && selectedIndex == 0
    {
      query, this.actions, filtered, selectedIndex := [], actions, [], 0;
    }

    method Filter(lower: Lower)
      modifies this`filtered, this`selectedIndex
      ensures filtered == Filtered(lower, actions, query)
      ensures old(selectedIndex) < |filtered| || old(selectedIndex) <= 0 ==> selectedIndex == old(selectedIndex)
      ensures 0 < old(selectedIndex) && |filtered| <= old(selectedIndex) ==>
        selectedIndex == if filtered == [] then 0 else |filtered| - 1
    {
      filtered := Filtered(lower, actions, query);
      var last := if |filtered| > 0 then |filtered| - 1 else 0;
      selectedIndex := if selectedIndex < last then selectedIndex else last;
    }
  }
}
