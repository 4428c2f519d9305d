/**
 Terminal panes: their order, which one has the focus, and the rectangle each one is drawn in.
 */
module PaneFocus {
  import opened Wrappers
  import opened PaneGrid

  datatype Pane = Pane(focused: bool, rect: Rect)

  datatype Panes = Panes(panes: map<string, Pane>, order: seq<string>, focusedId: Option<string>, region: Rect)

  // ---------------------------------------------------------------- operations

  /** An identifier counts as one only if it is not empty, as in a truth test of a string or null. */
  predicate Named(id: Option<string>) {
    id.Some? && id.value != ""
  }

  function SetFlag(panes: map<string, Pane>, id: string, flag: bool): map<string, Pane> {
    if id in panes then panes[id := panes[id].(focused := flag)] else panes
  }

  /** Gives the first `k` panes of the order their rectangles. */
  function Place(panes: map<string, Pane>, order: seq<string>, rects: seq<Rect>, k: nat): map<string, Pane>
    requires k <= |order| == |rects|
  {
    if k == 0 then panes
    else
      var placed := Place(panes, order, rects, k - 1);
      if order[k - 1] in placed then
        placed[order[k - 1] := placed[order[k - 1]].(rect := rects[k - 1])]
      else placed
  }

  function Relayout(s: Panes): Panes {
    s.(panes := Place(s.panes, s.order, Layout(s.region, |s.order|), |s.order|))
  }

  function FocusPane(s: Panes, id: string): Panes {
    if s.focusedId == Some(id) then s
    else
      var unflagged := if Named(s.focusedId) then SetFlag(s.panes, s.focusedId.value, false) else s.panes;
      s.(focusedId := Some(id), panes := SetFlag(unflagged, id, true))
  }

  function CreatePane(s: Panes, id: string): Panes {
    var added := s.(panes := s.panes[id := Pane(false, s.region)], order := s.order + [id]);
    Relayout(FocusPane(added, id))
  }

  function Without(order: seq<string>, id: string): seq<string> {
    if order == [] then []
    else if order[0] == id then Without(order[1..], id)
    else [order[0]] + Without(order[1..], id)
  }

  function First(order: seq<string>): Option<string> {
    if order == [] then None else Some(order[0])
  }

  function RemovePane(s: Panes, id: string): Panes {
    if id !in s.panes then s
    else
      var left := s.(panes := s.panes - {id}, order := Without(s.order, id));
      Relayout(
        if s.focusedId != Some(id) then left
        else
          var next := First(left.order);
          left.(focusedId := next, panes := if Named(next) then SetFlag(left.panes, next.value, true) else left.panes))
  }

  /** The first index, or -1. */
  function IndexOf(order: seq<string>, id: string): (i: int)
    ensures -1 <= i < |order|
    ensures i == -1 ==> id !in order
    ensures i >= 0 ==> order[i] == id && id !in order[..i]
  {
    if order == [] then -1
    else if order[0] == id then 0
    else
      var rest := IndexOf(order[1..], id);
      if rest < 0 then -1 else
        assert order[..rest + 1] == [order[0]] + order[1..][..rest];
        rest + 1
  }

  function FocusNext(s: Panes): Panes {
    if |s.order| <= 1 then s
    else
      var at := if Named(s.focusedId) then IndexOf(s.order, s.focusedId.value) else -1;
      FocusPane(s, s.order[(at + 1) % |s.order|])
  }

  function FocusPrev(s: Panes): Panes {
    if |s.order| <= 1 then s
    else
      var at := if Named(s.focusedId) then IndexOf(s.order, s.focusedId.value) else 0;
      FocusPane(s, s.order[(at - 1 + |s.order|) % |s.order|])
  }

  /** The screen was resized or the side bar moved. */
  function SetRegion(s: Panes, region: Rect): Panes {
    Relayout(s.(region := region))
  }

  datatype Event =
    | Create(id: string)
    | Remove(id: string)
    | Focus(id: string)
    | Next
    | Prev
    | Resize(region: Rect)

  function Step(s: Panes, e: Event): Panes {
    match e
    case Create(id) => CreatePane(s, id)
    case Remove(id) => RemovePane(s, id)
    case Focus(id) => FocusPane(s, id)
    case Next => FocusNext(s)
    case Prev => FocusPrev(s)
    case Resize(region) => SetRegion(s, region)
  }

  function Run(s: Panes, events: seq<Event>): Panes
    decreases |events|
  {
    if events == [] then s else Run(Step(s, events[0]), events[1..])
  }

  function NoPanes(region: Rect): Panes {
    Panes(map[], [], None, region)
  }

  // ---------------------------------------------------------------- the invariant

  ghost predicate Distinct(order: seq<string>) {
    forall i, j :: 0 <= i < j < |order| ==> order[i] != order[j]
  }

  ghost predicate SameIds(s: Panes) {
    forall id :: id in s.order <==> id in s.panes
  }

  ghost predicate FlagOk(s: Panes, id: string) {
    id in s.panes ==> (s.panes[id].focused <==> s.focusedId == Some(id))
  }

  /** The focus is on a pane whenever there is one, and exactly that pane is flagged. */
  ghost predicate FocusOk(s: Panes) {
    && (s.focusedId.None? <==> s.order == [])
    && (s.focusedId.Some? ==> s.focusedId.value in s.panes)
    && forall id :: FlagOk(s, id)
  }

  ghost predicate PlacedOk(s: Panes, i: nat) {
    i < |s.order| ==> s.order[i] in s.panes && s.panes[s.order[i]].rect == Layout(s.region, |s.order|)[i]
  }

  ghost predicate Tidy(s: Panes) {
    && Distinct(s.order)
    && SameIds(s)
    && "" !in s.order
    && FocusOk(s)
    && forall i: nat :: PlacedOk(s, i)
  }

  // ---------------------------------------------------------------- helpers

  lemma {:induction false} PlaceSets(panes: map<string, Pane>, order: seq<string>, rects: seq<Rect>, k: nat)
    requires k <= |order| == |rects|
    ensures Place(panes, order, rects, k).Keys == panes.Keys
    ensures forall id :: id in panes ==> Place(panes, order, rects, k)[id].focused == panes[id].focused
    ensures Distinct(order) ==>
      forall i :: 0 <= i < k && order[i] in panes ==> Place(panes, order, rects, k)[order[i]].rect == rects[i]
  {
    if k > 0 {
      PlaceSets(panes, order, rects, k - 1);
    }
  }

  lemma {:induction false} WithoutIs(order: seq<string>, id: string)
    ensures forall x :: x in Without(order, id) <==> x in order && x != id
    ensures Distinct(order) ==> Distinct(Without(order, id))
  {
    if order != [] {
      WithoutIs(order[1..], id);
      assert Distinct(order) ==> order[0] !in order[1..];
      assert Distinct(order) ==> Distinct(order[1..]);
    }
  }

  lemma {:induction false} WithoutNone(order: seq<string>, id: string)
    requires id !in order
    ensures Without(order, id) == order
    ensures Without(order + [id], id) == order
  {
    if order != [] {
      WithoutNone(order[1..], id);
      assert (order + [id])[1..] == order[1..] + [id];
    }
  }

  lemma IndexIs(order: seq<string>, i: nat)
    requires Distinct(order) && i < |order|
    ensures IndexOf(order, order[i]) == i
  {
  }

  /** Laying out again settles the rectangles and nothing else. */
  lemma RelayoutTidies(s: Panes)
    requires Distinct(s.order) && SameIds(s) && "" !in s.order && FocusOk(s)
    ensures Tidy(Relayout(s))
  {
    var laid := Relayout(s);
    PlaceSets(s.panes, s.order, Layout(s.region, |s.order|), |s.order|);
    forall i: nat ensures PlacedOk(laid, i) {
    }
    forall id ensures FlagOk(laid, id) {
      assert FlagOk(s, id);
    }
  }

  lemma RelayoutKeeps(s: Panes)
    ensures Relayout(s).order == s.order && Relayout(s).focusedId == s.focusedId && Relayout(s).region == s.region
    ensures Relayout(s).panes.Keys == s.panes.Keys
  {
    PlaceSets(s.panes, s.order, Layout(s.region, |s.order|), |s.order|);
  }

  // ---------------------------------------------------------------- each operation, exactly

  lemma FocusExact(s: Panes, id: string)
    requires Tidy(s)
    ensures Tidy(FocusPane(s, id)) <==> id in s.panes
  {
    var t := FocusPane(s, id);
    if id in s.panes {
      forall x ensures FlagOk(t, x) {
        assert FlagOk(s, x);
      }
      forall i: nat ensures PlacedOk(t, i) {
        assert PlacedOk(s, i);
      }
    }
  }

  lemma CreateExact(s: Panes, id: string)
    requires Tidy(s)
    ensures Tidy(CreatePane(s, id)) <==> id !in s.panes && id != ""
  {
    var added := s.(panes := s.panes[id := Pane(false, s.region)], order := s.order + [id]);
    var focused := FocusPane(added, id);
    RelayoutKeeps(focused);
    assert added.order[|s.order|] == id;
    if id !in s.panes && id != "" {
      forall x ensures FlagOk(focused, x) {
        assert FlagOk(s, x);
      }
      RelayoutTidies(focused);
    } else if id in s.panes {
      var i :| 0 <= i < |s.order| && s.order[i] == id;
      assert added.order[i] == id;
    }
  }

  lemma RemoveTidy(s: Panes, id: string)
    requires Tidy(s)
    ensures Tidy(RemovePane(s, id))
  {
    if id in s.panes {
      var left := s.(panes := s.panes - {id}, order := Without(s.order, id));
      WithoutIs(s.order, id);
      var next := First(left.order);
      var settled :=
        if s.focusedId != Some(id) then left
        else left.(focusedId := next, panes := if Named(next) then SetFlag(left.panes, next.value, true) else left.panes);
      assert left.order != [] ==> left.order[0] in s.order;
      assert s.focusedId.Some? && s.focusedId.value in s.order;
      forall x ensures FlagOk(settled, x) {
        assert FlagOk(s, x);
      }
      RelayoutTidies(settled);
    }
  }

  lemma RegionTidy(s: Panes, region: Rect)
    requires Tidy(s)
    ensures Tidy(SetRegion(s, region))
  {
    var moved := s.(region := region);
    forall x ensures FlagOk(moved, x) {
      assert FlagOk(s, x);
    }
    RelayoutTidies(moved);
  }

  /** The pane at place `i` has the focus. */
  predicate FocusedAt(s: Panes, i: nat) {
    i < |s.order| && s.focusedId == Some(s.order[i])
  }

  lemma FocusIsSomewhere(s: Panes) returns (i: nat)
    requires Tidy(s) && s.order != []
    ensures FocusedAt(s, i)
  {
    i :| 0 <= i < |s.order| && s.order[i] == s.focusedId.value;
  }

  /** The places after and before place `i`, round the end. */
  function After(i: nat, n: nat): nat {
    if i + 1 == n then 0 else i + 1
  }

  function Before(i: nat, n: nat): nat
    requires i < n
  {
    if i == 0 then n - 1 else i - 1
  }

  lemma RemainderIs(a: nat, n: nat, q: nat, r: nat)
    requires a == q * n + r && r < n
    ensures a % n == r
  {
    QuotientIff(a, n, q);
    assert a == (a / n) * n + a % n;
  }

  lemma NextIs(s: Panes, i: nat)
    requires Distinct(s.order) && "" !in s.order && FocusedAt(s, i)
    ensures FocusNext(s) == FocusPane(s, s.order[After(i, |s.order|)])
  {
    hide Distinct, IndexOf;
    IndexIs(s.order, i);
    assert s.order[i] != "";
    RemainderIs(i + 1, |s.order|, if i + 1 == |s.order| then 1 else 0, After(i, |s.order|));
  }

  lemma PrevIs(s: Panes, i: nat)
    requires Distinct(s.order) && "" !in s.order && FocusedAt(s, i)
    ensures FocusPrev(s) == FocusPane(s, s.order[Before(i, |s.order|)])
  {
    hide Distinct, IndexOf;
    IndexIs(s.order, i);
    assert s.order[i] != "";
    RemainderIs(i - 1 + |s.order|, |s.order|, if i == 0 then 0 else 1, Before(i, |s.order|));
  }

  lemma FocusMoves(s: Panes, j: nat)
    requires Tidy(s) && j < |s.order|
    ensures Tidy(FocusPane(s, s.order[j])) && FocusedAt(FocusPane(s, s.order[j]), j)
    ensures FocusPane(s, s.order[j]).order == s.order && FocusPane(s, s.order[j]).region == s.region
  {
    TidyIds(s, j);
    hide Tidy;
    FocusExact(s, s.order[j]);
  }

  lemma NextMoves(s: Panes, i: nat)
    requires Tidy(s) && FocusedAt(s, i)
    ensures FocusNext(s).order == s.order && FocusNext(s).region == s.region
    ensures Tidy(FocusNext(s)) && FocusedAt(FocusNext(s), After(i, |s.order|))
  {
    NextIs(s, i);
    hide Tidy, FocusPane, FocusNext;
    FocusMoves(s, After(i, |s.order|));
  }

  lemma PrevMoves(s: Panes, i: nat)
    requires Tidy(s) && FocusedAt(s, i)
    ensures FocusPrev(s).order == s.order && FocusPrev(s).region == s.region
    ensures Tidy(FocusPrev(s)) && FocusedAt(FocusPrev(s), Before(i, |s.order|))
  {
    PrevIs(s, i);
    hide Tidy, FocusPane, FocusPrev;
    FocusMoves(s, Before(i, |s.order|));
  }

  lemma NextTidy(s: Panes)
    requires Tidy(s)
    ensures Tidy(FocusNext(s)) && Tidy(FocusPrev(s))
  {
    if s.order != [] {
      var i := FocusIsSomewhere(s);
      NextMoves(s, i);
      PrevMoves(s, i);
    }
  }

  // ---------------------------------------------------------------- runs

  predicate Guard(s: Panes, e: Event) {
    && (e.Create? ==> e.id !in s.panes && e.id != "")
    && (e.Focus? ==> e.id in s.panes)
  }

  /** A step keeps the panes tidy if and only if it names a new pane to create, or a known one to focus. */
  lemma StepExact(s: Panes, e: Event)
    requires Tidy(s)
    ensures Tidy(Step(s, e)) <==> Guard(s, e)
  {
    hide Tidy, CreatePane, RemovePane, FocusPane, FocusNext, FocusPrev, SetRegion;
    match e
    case Create(id) => CreateExact(s, id);
    case Remove(id) => RemoveTidy(s, id);
    case Focus(id) => FocusExact(s, id);
    case Next => NextTidy(s);
    case Prev => NextTidy(s);
    case Resize(region) => RegionTidy(s, region);
  }

  /** The order without `id`: the rest stays in its places. */
  ghost predicate LeavesOut(order: seq<string>, left: seq<string>, id: string) {
    if id in order then exists a, b :: order == a + [id] + b && left == a + b else left == order
  }

  /**
   What each call does to the order, the focus and the region; tidy panes follow from these.  A new pane
   comes last and takes the focus, a pane removed hands a focus it had to the first that is left, and
   the focus goes round the order.
   */
  lemma StepChanges(s: Panes, e: Event, i: nat)
    requires Tidy(s) && (s.order != [] ==> FocusedAt(s, i))
    ensures var t := Step(s, e);
            match e
            case Create(id) => t.order == s.order + [id] && t.focusedId == Some(id) && t.region == s.region
            case Remove(id) =>
              && LeavesOut(s.order, t.order, id) && t.region == s.region
              && t.focusedId == (if s.focusedId != Some(id) then s.focusedId
                                 else if t.order == [] then None else Some(t.order[0]))
            case Focus(id) => t.order == s.order && t.focusedId == Some(id) && t.region == s.region
            case Next =>
              && t.order == s.order && t.region == s.region
              && if s.order == [] then t == s else FocusedAt(t, After(i, |s.order|))
            case Prev =>
              && t.order == s.order && t.region == s.region
              && if s.order == [] then t == s else FocusedAt(t, Before(i, |s.order|))
            case Resize(region) => t.order == s.order && t.focusedId == s.focusedId && t.region == region
  {
    assert SameIds(s) && Distinct(s.order);
    match e
    case Create(id) => CreateShape(s, id);
    case Remove(id) =>
      if id in s.panes {
        RemoveShape(s, id);
      }
      WithoutLeavesOut(s.order, id);
    case Focus(id) => FocusShape(s, id);
    case Next =>
      if s.order != [] {
        NextMoves(s, i);
      }
    case Prev =>
      if s.order != [] {
        PrevMoves(s, i);
      }
    case Resize(region) => RelayoutKeeps(s.(region := region));
  }

  lemma Prefixed(first: string, a: seq<string>, id: string, b: seq<string>)
    ensures [first] + (a + [id] + b) == ([first] + a) + [id] + b && [first] + (a + b) == ([first] + a) + b
  {
  }

  lemma {:induction false} WithoutLeavesOut(order: seq<string>, id: string)
    requires Distinct(order)
    ensures LeavesOut(order, Without(order, id), id)
  {
    if id !in order {
      WithoutNone(order, id);
    } else {
      var rest := order[1..];
      assert Distinct(rest);
      if order[0] == id {
        assert id !in rest;
        WithoutNone(rest, id);
        assert order == [] + [id] + rest && Without(order, id) == [] + rest;
      } else {
        WithoutLeavesOut(rest, id);
        var a, b :| rest == a + [id] + b && Without(rest, id) == a + b;
        Prefixed(order[0], a, id, b);
        assert order == [order[0]] + rest;
      }
    }
  }

  predicate Guarded(s: Panes, events: seq<Event>)
    decreases |events|
  {
    events == [] || (Guard(s, events[0]) && Guarded(Step(s, events[0]), events[1..]))
  }

  lemma EmptyIsTidy(region: Rect)
    ensures Tidy(NoPanes(region))
  {
  }

  lemma {:induction false} RunTidy(s: Panes, events: seq<Event>)
    requires Tidy(s) && Guarded(s, events)
    ensures Tidy(Run(s, events))
    decreases |events|
  {
    hide Tidy, Guard, Step;
    if events != [] {
      StepExact(s, events[0]);
      RunTidy(Step(s, events[0]), events[1..]);
    }
  }

  /** What the screen shows of tidy panes follows from their order, the focus and the region. */
  lemma TidyDetermined(s: Panes, t: Panes)
    requires Tidy(s) && Tidy(t) && s.order == t.order && s.focusedId == t.focusedId && s.region == t.region
    ensures s == t
  {
    assert s.panes.Keys == t.panes.Keys by {
      forall id ensures id in s.panes <==> id in t.panes {
        assert id in s.order <==> id in t.order;
      }
    }
    forall id | id in s.panes ensures s.panes[id] == t.panes[id] {
      assert FlagOk(s, id) && FlagOk(t, id);
      var i :| 0 <= i < |s.order| && s.order[i] == id;
      assert PlacedOk(s, i) && PlacedOk(t, i);
    }
    assert s.panes == t.panes;
  }

  /** The panes of a tidy screen never overlap, and stay inside a region that has room. */
  lemma TidyPanesApart(s: Panes, a: string, b: string, px: int, py: int)
    requires Tidy(s) && a in s.panes && b in s.panes && s.region.width >= 0 && s.region.height >= 0
    ensures Within(s.panes[a].rect, s.region)
    ensures Contains(s.panes[a].rect, px, py) && Contains(s.panes[b].rect, px, py) ==> a == b
  {
    hide Layout, Within, Contains;
    var i :| 0 <= i < |s.order| && s.order[i] == a;
    var j :| 0 <= j < |s.order| && s.order[j] == b;
    assert PlacedOk(s, i) && PlacedOk(s, j);
    LayoutWithin(s.region, |s.order|, i);
    if Contains(s.panes[a].rect, px, py) && Contains(s.panes[b].rect, px, py) {
      LayoutDisjoint(s.region, |s.order|, i, j, px, py);
    }
  }

  // ---------------------------------------------------------------- one operation undoes another

  lemma SameFocus(s: Panes, t: Panes, i: nat)
    requires Tidy(s) && Tidy(t) && s.order == t.order && s.region == t.region
    requires FocusedAt(s, i) && FocusedAt(t, i)
    ensures s == t
  {
    hide Tidy;
    TidyDetermined(s, t);
  }

  lemma BeforeAfter(i: nat, n: nat)
    requires i < n
    ensures Before(After(i, n), n) == i && After(Before(i, n), n) == i
  {
  }

  /** Going back undoes going forward, and the other way round. */
  lemma PrevUndoesNext(s: Panes)
    requires Tidy(s)
    ensures FocusPrev(FocusNext(s)) == s && FocusNext(FocusPrev(s)) == s
  {
    if s.order != [] {
      var i := FocusIsSomewhere(s);
      PrevUndoesNextAt(s, i);
    }
  }

  lemma PrevUndoesNextAt(s: Panes, i: nat)
    requires Tidy(s) && FocusedAt(s, i)
    ensures FocusPrev(FocusNext(s)) == s && FocusNext(FocusPrev(s)) == s
  {
    var n := |s.order|;
    assert i < n;
    BeforeAfter(i, n);
    hide *;
    NextMoves(s, i);
    PrevMoves(FocusNext(s), After(i, n));
    SameFocus(s, FocusPrev(FocusNext(s)), i);
    PrevMoves(s, i);
    NextMoves(FocusPrev(s), Before(i, n));
    SameFocus(s, FocusNext(FocusPrev(s)), i);
  }

  /** Removing a pane just created leaves the others as they were, with the focus on the first. */
  lemma RemoveUndoesCreate(s: Panes, id: string)
    requires Tidy(s) && id !in s.panes && id != ""
    ensures RemovePane(CreatePane(s, id), id) == if s.order == [] then s else FocusPane(s, s.order[0])
  {
    var t := RemovePane(CreatePane(s, id), id);
    var expected := if s.order == [] then s else FocusPane(s, s.order[0]);
    CreateExact(s, id);
    RemoveTidy(CreatePane(s, id), id);
    if s.order != [] {
      FocusExact(s, s.order[0]);
    }
    CreateShape(s, id);
    RemoveShape(CreatePane(s, id), id);
    WithoutNone(s.order, id);
    hide Tidy, CreatePane, RemovePane;
    TidyDetermined(t, expected);
  }

  lemma CreateShape(s: Panes, id: string)
    ensures var t := CreatePane(s, id);
            && t.order == s.order + [id] && t.focusedId == Some(id) && t.region == s.region && id in t.panes
  {
    var added := s.(panes := s.panes[id := Pane(false, s.region)], order := s.order + [id]);
    RelayoutKeeps(FocusPane(added, id));
  }

  lemma RemoveShape(s: Panes, id: string)
    requires id in s.panes
    ensures var t := RemovePane(s, id);
            && t.order == Without(s.order, id) && t.region == s.region
            && t.focusedId == if s.focusedId == Some(id) then First(t.order) else s.focusedId
  {
    hide Relayout;
    var left := s.(panes := s.panes - {id}, order := Without(s.order, id));
    var next := First(left.order);
    RelayoutKeeps(left);
    RelayoutKeeps(
      left.(focusedId := next, panes := if Named(next) then SetFlag(left.panes, next.value, true) else left.panes));
  }

  // ---------------------------------------------------------------- rotation

  function NextTimes(s: Panes, k: nat): Panes {
    if k == 0 then s else FocusNext(NextTimes(s, k - 1))
  }

  lemma FocusShape(s: Panes, id: string)
    ensures var t := FocusPane(s, id); t.order == s.order && t.focusedId == Some(id) && t.region == s.region
  {
  }

  lemma NextIndex(i: nat, n: nat)
    requires n > 0
    ensures After(i % n, n) == (i + 1) % n
  {
    var q, r := i / n, i % n;
    assert i == q * n + r;
    assert (q + 1) * n == q * n + n;
    RemainderIs(i + 1, n, if r + 1 == n then q + 1 else q, After(r, n));
  }

  /** After `k` steps forward the focus is `k` places on, round the end of the order, and nothing else changed. */
  lemma {:induction false} RotationIs(s: Panes, i: nat, k: nat)
    requires Tidy(s) && FocusedAt(s, i)
    ensures NextTimes(s, k) == FocusPane(s, s.order[(i + k) % |s.order|])
  {
    Rotates(s, i, k);
    FocusExact(s, s.order[(i + k) % |s.order|]);
    TidyIds(s, (i + k) % |s.order|);
    FocusShape(s, s.order[(i + k) % |s.order|]);
    hide FocusPane, Tidy, NextTimes;
    TidyDetermined(NextTimes(s, k), FocusPane(s, s.order[(i + k) % |s.order|]));
  }

  lemma {:induction false} Rotates(s: Panes, i: nat, k: nat)
    requires Tidy(s) && FocusedAt(s, i)
    ensures var t := NextTimes(s, k);
            Tidy(t) && t.order == s.order && t.region == s.region && FocusedAt(t, (i + k) % |s.order|)
  {
    hide Tidy, FocusNext;
    if k == 0 {
      RemainderIs(i, |s.order|, 0, i);
    } else {
      Rotates(s, i, k - 1);
      NextMoves(NextTimes(s, k - 1), (i + k - 1) % |s.order|);
      NextIndex(i + k - 1, |s.order|);
    }
  }

  lemma TidyIds(s: Panes, i: nat)
    requires Tidy(s) && i < |s.order|
    ensures s.order[i] in s.panes
  {
  }

  /** One turn comes back to where it began, and passes every pane on the way. */
  lemma FullTurn(s: Panes, id: string)
    requires Tidy(s) && id in s.panes
    ensures NextTimes(s, |s.order|) == s
    ensures exists k :: 0 <= k < |s.order| && NextTimes(s, k) == FocusPane(s, id)
  {
    var j :| 0 <= j < |s.order| && s.order[j] == id;
    var i := FocusIsSomewhere(s);
    TurnsBack(s, i);
    var k := TurnsTo(s, i, j);
  }

  lemma TurnsBack(s: Panes, i: nat)
    requires Tidy(s) && FocusedAt(s, i)
    ensures NextTimes(s, |s.order|) == s
  {
    hide Tidy, NextTimes;
    RotationIs(s, i, |s.order|);
    RemainderIs(i + |s.order|, |s.order|, 1, i);
  }

  lemma TurnsTo(s: Panes, i: nat, j: nat) returns (k: nat)
    requires Tidy(s) && FocusedAt(s, i) && j < |s.order|
    ensures k < |s.order| && NextTimes(s, k) == FocusPane(s, s.order[j])
  {
    hide Tidy, NextTimes, FocusPane;
    k := if i <= j then j - i else j + |s.order| - i;
    RotationIs(s, i, k);
    RemainderIs(i + k, |s.order|, if i <= j then 0 else 1, j);
  }
}

/**
 The pane manager as the program keeps it: pane objects in a map, updated in place.
 */
module PaneManagers {
  import opened Wrappers
  import opened PaneGrid
  import opened PaneFocus

  class TerminalPane {
    var focused: bool
    var rect: Rect

    constructor (rect: Rect)
      ensures !focused && this.rect == rect
    {
      focused, this.rect := false, rect;
    }
  }

  class PaneManager {
    var panes: map<string, TerminalPane>
    var order: seq<string>
    var focusedId: Option<string>
    var region: Rect

    /** No object stands for two panes, and the order names the panes there are. */
    ghost predicate Valid()
      reads this`panes, this`order
    {
      && (forall a, b :: a in panes && b in panes && panes[a] == panes[b] ==> a == b)
      && (forall id :: id in order <==> id in panes)
    }

    ghost function Shown(): map<string, Pane>
      reads this`panes, panes.Values
    {
      map id | id in panes :: Pane(panes[id].focused, panes[id].rect)
    }

    ghost function View(): Panes
      reads this, panes.Values
    {
      Panes(Shown(), order, focusedId, region)
    }

    constructor (region: Rect)
      ensures Valid() && View() == NoPanes(region)
    {
      panes, order, focusedId, this.region := map[], [], None, region;
    }

    // ---------------------------------------------------------------- small updates

    method SetFocused(id: string, flag: bool)
      requires Valid()
      modifies panes.Values
      ensures Shown() == SetFlag(old(Shown()), id, flag)
    {
      if id in panes {
        panes[id].focused := flag;
        assert forall x :: x in panes && x != id ==> panes[x] != panes[id];
      }
    }

    method SetRect(id: string, rect: Rect)
      requires Valid() && id in panes
      modifies panes[id]
      ensures Shown() == old(Shown())[id := old(Shown())[id].(rect := rect)]
    {
      panes[id].rect := rect;
      assert forall x :: x in panes && x != id ==> panes[x] != panes[id];
    }

    method Add(id: string)
      requires Valid()
      modifies this`panes, this`order
      ensures Valid() && panes.Keys == old(panes.Keys) + {id} && fresh(panes[id]) && order == old(order) + [id]
      ensures forall x :: x in old(panes) && x != id ==> panes[x] == old(panes[x])
      ensures Shown() == old(Shown())[id := Pane(false, region)]
    {
      var pane := new TerminalPane(region);
      panes := panes[id := pane];
      order := order + [id];
    }

    method Forget(id: string)
      requires Valid()
      modifies this`panes, this`order
      ensures Valid() && panes == old(panes) - {id} && order == Without(old(order), id)
      ensures Shown() == old(Shown()) - {id}
    {
      panes := panes - {id};
      WithoutIs(order, id);
      order := Without(order, id);
    }

    // ---------------------------------------------------------------- layout

    method Relayout()
      requires Valid()
      modifies panes.Values
      ensures View() == PaneFocus.Relayout(old(View()))
    {
      if order == [] {
        return;
      }
      var rects := CalculateGrid(region, |order|);
      for i := 0 to |order|
        invariant Shown() == Place(old(Shown()), order, rects, i)
      {
        assert order[i] in order;
        SetRect(order[i], rects[i]);
      }
    }

    // ---------------------------------------------------------------- operations

    method FocusPane(id: string)
      requires Valid()
      modifies this`focusedId, panes.Values
      ensures Valid() && View() == PaneFocus.FocusPane(old(View()), id)
    {
      hide Valid, Shown, SetFlag;
      if focusedId == Some(id) {
        return;
      }
      if Named(focusedId) {
        SetFocused(focusedId.value, false);
      }
      focusedId := Some(id);
      SetFocused(id, true);
    }

    method CreatePane(id: string)
      requires Valid()
      modifies this, panes.Values
      ensures Valid() && View() == PaneFocus.CreatePane(old(View()), id)
      ensures panes.Keys == old(panes.Keys) + {id} && fresh(panes[id])
      ensures forall x :: x in old(panes) && x != id ==> panes[x] == old(panes[x])
    {
      hide Valid, Shown, PaneFocus.Relayout, PaneFocus.FocusPane;
      Add(id);
      FocusPane(id);
      Relayout();
    }

    method RemovePane(id: string)
      requires Valid()
      modifies this, panes.Values
      ensures Valid() && View() == PaneFocus.RemovePane(old(View()), id)
      ensures panes == old(panes) - {id}
    {
      hide PaneFocus.Relayout, SetFlag;
      if id !in panes {
        return;
      }
      Forget(id);
      hide Valid, Shown;
      if focusedId == Some(id) {
        focusedId := First(order);
        if Named(focusedId) {
          SetFocused(focusedId.value, true);
        }
      }
      Relayout();
    }

    method FocusNext()
      requires Valid()
      modifies this`focusedId, panes.Values
      ensures Valid() && View() == PaneFocus.FocusNext(old(View()))
    {
      hide Valid, Shown, PaneFocus.FocusPane;
      if |order| <= 1 {
        return;
      }
      var at := if Named(focusedId) then IndexOf(order, focusedId.value) else -1;
      FocusPane(order[(at + 1) % |order|]);
    }

    method FocusPrev()
      requires Valid()
      modifies this`focusedId, panes.Values
      ensures Valid() && View() == PaneFocus.FocusPrev(old(View()))
    {
      hide Valid, Shown, PaneFocus.FocusPane;
      if |order| <= 1 {
        return;
      }
      var at := if Named(focusedId) then IndexOf(order, focusedId.value) else 0;
      FocusPane(order[(at - 1 + |order|) % |order|]);
    }

    method SetRegion(region: Rect)
      requires Valid()
      modifies this`region, panes.Values
      ensures Valid() && View() == PaneFocus.SetRegion(old(View()), region)
    {
      hide Valid, Shown, PaneFocus.Relayout;
      this.region := region;
      Relayout();
    }
  }
}
