/** The wall editor (environment_builder.py). The script's module-level
    globals `walls`, `selected_wall`, `copied_wall` and `is_dragging` become
    the fields of `Editor`; each of the script's functions becomes one of its
    methods. What a click on the walls does is specified by the pure function
    `Click` on the walls' states, and what each button does by a two-state
    predicate over the editor and its walls. */
module EnvironmentBuilder {
  import opened Rects
  import opened Wrappers
  import opened Walls
  import opened Lists

  // ------------------------------------------------------------------ lists

  /** No element occurs twice. */
  predicate Distinct<T(==)>(s: seq<T>) {
    forall i, j :: 0 <= i < j < |s| ==> s[i] != s[j]
  }

  /** `list.remove`: the sequence without the first occurrence of `x`; the
      elements after it move one place forward. */
  function RemoveFirst<T(==)>(s: seq<T>, x: T): (r: seq<T>)
    requires x in s
    ensures |r| == |s| - 1
    ensures forall k :: 0 <= k < |r| ==> r[k] == s[if k < IndexOf(s, x) then k else k + 1]
  {
    if s[0] == x then s[1..] else [s[0]] + RemoveFirst(s[1..], x)
  }

  /** Removing an element from a sequence without repetitions removes every
      occurrence of it and keeps the others, still without repetitions. */
  lemma RemoveFirstDistinct<T>(s: seq<T>, x: T)
    requires x in s && Distinct(s)
    ensures var r := RemoveFirst(s, x);
            && Distinct(r) && x !in r
            && forall y :: y in r <==> y in s && y != x
  {
    var i := IndexOf(s, x);
    var r := RemoveFirst(s, x);
    forall a, b | 0 <= a < b < |r|
      ensures r[a] != r[b]
    {
      var a', b' := if a < i then a else a + 1, if b < i then b else b + 1;
      assert r[a] == s[a'] && r[b] == s[b'];
    }
    forall y | y in r
      ensures y in s && y != x
    {
      var k :| 0 <= k < |r| && r[k] == y;
      var k' := if k < i then k else k + 1;
      assert s[k'] == y && k' != i;
    }
    forall y | y in s && y != x
      ensures y in r
    {
      var k :| 0 <= k < |s| && s[k] == y;
      assert k != i;
      assert r[if k < i then k else k - 1] == y;
    }
  }

  // -------------------------------------------------------- point lookups

  /** The first rectangle containing `p`, by position. */
  function FirstContaining(rs: seq<Rect>, p: Point): (i: Option<nat>)
    ensures i.Some? ==> i.value < |rs|
  {
    if rs == [] then None
    else if rs[0].ContainsPoint(p) then Some(0)
    else match FirstContaining(rs[1..], p)
      case None => None
      case Some(j) => Some(j + 1)
  }

  /** `FirstContaining` finds the first rectangle containing the point, and
      finds none exactly when no rectangle contains it. */
  lemma {:induction false} FirstContainingIsFirst(rs: seq<Rect>, p: Point)
    ensures var i := FirstContaining(rs, p);
            && (i.Some? ==> rs[i.value].ContainsPoint(p))
            && (i.Some? ==> forall k :: 0 <= k < i.value ==> !rs[k].ContainsPoint(p))
            && (i.None? ==> forall k :: 0 <= k < |rs| ==> !rs[k].ContainsPoint(p))
  {
    if rs != [] && !rs[0].ContainsPoint(p) {
      FirstContainingIsFirst(rs[1..], p);
    }
  }

  /** A position is what `FirstContaining` returns when the rectangle there
      contains the point and none before it does. */
  lemma FirstContainingAt(rs: seq<Rect>, p: Point, i: nat)
    requires i <= |rs|
    requires forall k :: 0 <= k < i ==> !rs[k].ContainsPoint(p)
    ensures i < |rs| && rs[i].ContainsPoint(p) ==> FirstContaining(rs, p) == Some(i)
    ensures i == |rs| ==> FirstContaining(rs, p) == None
  {
    FirstContainingIsFirst(rs, p);
  }

  // ---------------------------------------------------------------- buttons

  /** What a button does when clicked. */
  datatype Action = AddWall | CopyWall | PasteWall | ResetWorld | DeleteWall | SaveWorld | LoadWorld

  datatype Button = Button(rect: Rect, text: string, action: Action)

  /** The seven buttons, top to bottom, in the column right of the arena. */
  const BUTTONS: seq<Button> := [
    Button(Rect(850, 50, 100, 50), "Add Wall", AddWall),
    Button(Rect(850, 110, 100, 50), "Copy Wall", CopyWall),
    Button(Rect(850, 170, 100, 50), "Paste Wall", PasteWall),
    Button(Rect(850, 230, 100, 50), "Reset World", ResetWorld),
    Button(Rect(850, 290, 100, 50), "Delete Wall", DeleteWall),
    Button(Rect(850, 350, 100, 50), "Save World", SaveWorld),
    Button(Rect(850, 410, 100, 50), "Load World", LoadWorld)
  ]

  function ButtonRects(): (rs: seq<Rect>)
    ensures |rs| == |BUTTONS| && forall i :: 0 <= i < |BUTTONS| ==> rs[i] == BUTTONS[i].rect
  {
    seq(|BUTTONS|, i requires 0 <= i < |BUTTONS| => BUTTONS[i].rect)
  }

  /** The action of the first button under `p`, if any. */
  function ButtonAt(p: Point): Option<Action> {
    match FirstContaining(ButtonRects(), p)
    case None => None
    case Some(i) => Some(BUTTONS[i].action)
  }

  /** The buttons do not overlap and each has its own action, so a click
      runs an action exactly when it lands on that action's button. */
  lemma ButtonAtIff(p: Point, i: nat)
    requires i < |BUTTONS|
    ensures ButtonAt(p) == Some(BUTTONS[i].action) <==> BUTTONS[i].rect.ContainsPoint(p)
  {
    var f := FirstContaining(ButtonRects(), p);
    FirstContainingIsFirst(ButtonRects(), p);
    if BUTTONS[i].rect.ContainsPoint(p) {
      assert f.Some? && f.value <= i;
    }
  }

  /** No button lies over the arena, so clicks inside it never reach one. */
  lemma ArenaClicksMissButtons(p: Point)
    requires p.x < 800
    ensures ButtonAt(p) == None
  {
    FirstContainingIsFirst(ButtonRects(), p);
  }

  // -------------------------------------------------------- clicking walls

  /** The first handle of `r` (in the order of HANDLES) under `p`. */
  function HandleAt(r: Rect, p: Point): (h: Option<nat>)
    ensures h.Some? ==> h.value < |HANDLES|
  {
    FirstContaining(GetHandles(r), p)
  }

  /** A click grabs a wall when it lands inside the wall and on one of its
      handles. */
  predicate Grabs(r: Rect, p: Point) {
    r.ContainsPoint(p) && HandleAt(r, p).Some?
  }

  /** A wall the scan of the walls passes without stopping: selected if the
      click lands on it; otherwise unselected, and any resize forgotten. */
  function Touched(w: WallState, p: Point): WallState {
    if w.rect.ContainsPoint(p) then w.(selected := true)
    else w.(selected := false, resizing := false, resizeDir := None)
  }

  /** The wall where the scan stops: selected and resizing by the grabbed
      handle. */
  function Grabbed(w: WallState, p: Point): WallState
    requires Grabs(w.rect, p)
  {
    w.(selected := true, resizing := true, resizeDir := Some(HANDLES[HandleAt(w.rect, p).value]))
  }

  /** Index of the first wall the click grabs, or the number of walls. */
  function StopIndex(ws: seq<WallState>, p: Point): (n: nat)
    ensures n <= |ws|
    ensures n < |ws| ==> Grabs(ws[n].rect, p)
  {
    if ws == [] then 0
    else if Grabs(ws[0].rect, p) then 0
    else 1 + StopIndex(ws[1..], p)
  }

  /** No wall before the stop index is grabbed. */
  lemma {:induction false} StopIndexIsFirst(ws: seq<WallState>, p: Point)
    ensures forall i :: 0 <= i < StopIndex(ws, p) ==> !Grabs(ws[i].rect, p)
  {
    if ws != [] && !Grabs(ws[0].rect, p) {
      StopIndexIsFirst(ws[1..], p);
    }
  }

  /** Index of the last of the first `n` walls that contains `p`. */
  function LastContaining(ws: seq<WallState>, p: Point, n: nat): (i: Option<nat>)
    requires n <= |ws|
    ensures i.Some? ==> i.value < n && ws[i.value].rect.ContainsPoint(p)
  {
    if n == 0 then None
    else if ws[n - 1].rect.ContainsPoint(p) then Some(n - 1)
    else LastContaining(ws, p, n - 1)
  }

  /** One more wall: it is the last containing `p` if it contains `p`. */
  lemma LastContainingStep(ws: seq<WallState>, p: Point, j: nat)
    requires j < |ws|
    ensures LastContaining(ws, p, j + 1) == if ws[j].rect.ContainsPoint(p) then Some(j) else LastContaining(ws, p, j)
  {
  }

  /** No wall after `LastContaining`, among the first `n`, contains `p`. */
  lemma {:induction false} LastContainingIsLast(ws: seq<WallState>, p: Point, n: nat)
    requires n <= |ws|
    ensures var i := LastContaining(ws, p, n);
            && (i.Some? ==> forall k :: i.value < k < n ==> !ws[k].rect.ContainsPoint(p))
            && (i.None? ==> forall k :: 0 <= k < n ==> !ws[k].rect.ContainsPoint(p))
  {
    if n > 0 && !ws[n - 1].rect.ContainsPoint(p) {
      LastContainingIsLast(ws, p, n - 1);
    }
  }

  /** The first `n` walls touched by the scan, the others as they were. */
  function TouchedUpTo(ws: seq<WallState>, p: Point, n: nat): (vs: seq<WallState>)
    requires n <= |ws|
    ensures |vs| == |ws|
  {
    if n == 0 then ws else TouchedUpTo(ws, p, n - 1)[n - 1 := Touched(ws[n - 1], p)]
  }

  /** The first `n` walls are touched, the others are as they were. */
  lemma {:induction false} TouchedUpToAt(ws: seq<WallState>, p: Point, n: nat)
    requires n <= |ws|
    ensures forall i :: 0 <= i < |ws| ==> TouchedUpTo(ws, p, n)[i] == if i < n then Touched(ws[i], p) else ws[i]
  {
    if n > 0 {
      TouchedUpToAt(ws, p, n - 1);
    }
  }

  /** Walls from `n` on are not touched. */
  lemma {:induction false} TouchedUpToUntouched(ws: seq<WallState>, p: Point, n: nat, i: nat)
    requires n <= i < |ws|
    ensures TouchedUpTo(ws, p, n)[i] == ws[i]
  {
    if n > 0 {
      TouchedUpToUntouched(ws, p, n - 1, i);
    }
  }

  /** The walls after a click, and the index of the wall that became
      `selected_wall` (None: `selected_wall` keeps its value). */
  datatype ClickResult = ClickResult(walls: seq<WallState>, selected: Option<nat>)

  /** A mouse-down on the walls. The walls are scanned in order: each one
      before the first grabbed wall is `Touched`, the grabbed wall is
      `Grabbed` and the scan stops, so later walls keep their state. The
      selection is the last wall containing the click up to the stop. */
  function Click(ws: seq<WallState>, p: Point): (r: ClickResult)
    ensures |r.walls| == |ws| && (r.selected.Some? ==> r.selected.value < |ws|)
  {
    var n := StopIndex(ws, p);
    var touched := TouchedUpTo(ws, p, n);
    if n < |ws| then ClickResult(touched[n := Grabbed(ws[n], p)], LastContaining(ws, p, n + 1))
    else ClickResult(touched, LastContaining(ws, p, n))
  }

  /** A scan that has not stopped before wall `j` and does not grab it
      has not stopped at `j` either. */
  lemma ScanPasses(ws: seq<WallState>, p: Point, j: nat)
    requires j < |ws| && j <= StopIndex(ws, p) && !Grabs(ws[j].rect, p)
    ensures j + 1 <= StopIndex(ws, p)
  {
  }

  /** A scan that stops at wall `j` has performed the click. */
  lemma ClickStopsAt(ws: seq<WallState>, p: Point, j: nat)
    requires j < |ws| && j <= StopIndex(ws, p) && Grabs(ws[j].rect, p)
    ensures Click(ws, p) == ClickResult(TouchedUpTo(ws, p, j)[j := Grabbed(ws[j], p)], Some(j))
  {
    StopIndexIsFirst(ws, p);
  }

  /** A scan that grabs no wall has performed the click. */
  lemma ClickRunsThrough(ws: seq<WallState>, p: Point)
    requires StopIndex(ws, p) == |ws|
    ensures Click(ws, p) == ClickResult(TouchedUpTo(ws, p, |ws|), LastContaining(ws, p, |ws|))
  {
  }

  /** A click changes no rectangle; the wall it selects contains the click
      and is marked selected; a wall the click misses is left neither
      selected nor resizing, unless the scan stopped before reaching it, and
      at most one wall, the selected one, is grabbed by a handle. */
  lemma ClickFacts(ws: seq<WallState>, p: Point)
    ensures var r := Click(ws, p);
            && (forall i :: 0 <= i < |ws| ==> r.walls[i].rect == ws[i].rect)
            && (r.selected.Some? ==> ws[r.selected.value].rect.ContainsPoint(p) && r.walls[r.selected.value].selected)
            && (forall i :: 0 <= i < |ws| && !ws[i].rect.ContainsPoint(p) ==>
                  (!r.walls[i].selected && !r.walls[i].resizing) || r.walls[i] == ws[i])
            && (forall i :: 0 <= i < |ws| && r.walls[i].resizing && !ws[i].resizing ==>
                  r.selected == Some(i) && r.walls[i].resizeDir.Some?)
  {
    var n := StopIndex(ws, p);
    TouchedUpToAt(ws, p, n);
    if n < |ws| {
      assert Click(ws, p).selected == Some(n);
    }
  }

  /** A click that misses every wall unselects all of them, cancels every
      resize and leaves `selected_wall` alone. */
  lemma ClickOnEmptySpace(ws: seq<WallState>, p: Point)
    requires forall i :: 0 <= i < |ws| ==> !ws[i].rect.ContainsPoint(p)
    ensures var r := Click(ws, p);
            && r.selected == None
            && forall i :: 0 <= i < |ws| ==>
                 r.walls[i] == ws[i].(selected := false, resizing := false, resizeDir := None)
  {
    assert StopIndex(ws, p) == |ws|;
    TouchedUpToAt(ws, p, |ws|);
    LastContainingIsLast(ws, p, |ws|);
  }

  /** Wall `i` after a click: touched before the stop, grabbed at it, as it
      was after it. */
  lemma ClickWallAt(ws: seq<WallState>, p: Point, i: nat)
    requires i < |ws|
    ensures var n := StopIndex(ws, p);
            Click(ws, p).walls[i] == if i < n then Touched(ws[i], p) else if i == n then Grabbed(ws[i], p) else ws[i]
  {
    TouchedUpToAt(ws, p, StopIndex(ws, p));
  }

  /** Clicking twice at the same place is clicking once. */
  lemma {:induction false} ClickIdempotent(ws: seq<WallState>, p: Point)
    ensures Click(Click(ws, p).walls, p) == Click(ws, p)
  {
    var r := Click(ws, p);
    var n := StopIndex(ws, p);
    forall i | 0 <= i < |ws|
      ensures r.walls[i].rect == ws[i].rect
    {
      ClickWallAt(ws, p, i);
    }
    SameRectsSameStop(ws, r.walls, p);
    SameRectsSameLast(ws, r.walls, p, if n < |ws| then n + 1 else n);
    var r2 := Click(r.walls, p);
    forall i | 0 <= i < |ws|
      ensures r2.walls[i] == r.walls[i]
    {
      ClickWallAt(ws, p, i);
      ClickWallAt(r.walls, p, i);
    }
    assert r2.walls == r.walls;
  }

  /** The stop index depends only on the rectangles. */
  lemma {:induction false} SameRectsSameStop(ws: seq<WallState>, vs: seq<WallState>, p: Point)
    requires |ws| == |vs| && forall i :: 0 <= i < |ws| ==> ws[i].rect == vs[i].rect
    ensures StopIndex(ws, p) == StopIndex(vs, p)
  {
    if ws != [] && !Grabs(ws[0].rect, p) {
      SameRectsSameStop(ws[1..], vs[1..], p);
    }
  }

  /** The last containing wall depends only on the rectangles. */
  lemma {:induction false} SameRectsSameLast(ws: seq<WallState>, vs: seq<WallState>, p: Point, n: nat)
    requires |ws| == |vs| && n <= |ws| && forall i :: 0 <= i < |ws| ==> ws[i].rect == vs[i].rect
    ensures LastContaining(ws, p, n) == LastContaining(vs, p, n)
  {
    if n > 0 && !ws[n - 1].rect.ContainsPoint(p) {
      SameRectsSameLast(ws, vs, p, n - 1);
    }
  }

  // -------------------------------------------------------- saving walls

  /** What `save_walls` writes: one record per wall, in order. */
  function Records(rs: seq<Rect>): (ds: seq<map<string, int>>)
    ensures |ds| == |rs|
    ensures forall i :: 0 <= i < |rs| ==> ds[i].Keys == RECORD_KEYS && DictToRect(ds[i]) == Some(rs[i])
  {
    seq(|rs|, i requires 0 <= i < |rs| => ToDict(rs[i]))
  }

  /** The rectangles `load_walls` builds from a list of records, or None when
      a record lacks a key (the `KeyError` that aborts the load). */
  function DecodeAll(ds: seq<map<string, int>>): (r: Option<seq<Rect>>)
    ensures r.Some? <==> forall i :: 0 <= i < |ds| ==> DictToRect(ds[i]).Some?
    ensures r.Some? ==> |r.value| == |ds| && forall i :: 0 <= i < |ds| ==> Some(r.value[i]) == DictToRect(ds[i])
  {
    if ds == [] then Some([])
    else match (DictToRect(ds[0]), DecodeAll(ds[1..]))
      case (Some(r0), Some(rest)) => Some([r0] + rest)
      case _ => None
  }

  /** Loading what was saved gives back the same rectangles, in order. */
  lemma SaveLoadRoundTrip(rs: seq<Rect>)
    ensures DecodeAll(Records(rs)) == Some(rs)
  {
    var ds := Records(rs);
    var d := DecodeAll(ds);
    assert d.Some?;
    forall i | 0 <= i < |rs|
      ensures d.value[i] == rs[i]
    {
      assert Some(d.value[i]) == DictToRect(ds[i]) == Some(rs[i]);
    }
    assert d.value == rs;
  }

  // ----------------------------------------------------------------- events

  /** The keys the editor reacts to. */
  datatype Key = KeyC | KeyV | KeyS | KeyL | OtherKey

  /** The events the editor's loop hands to its two handlers. A motion event
      carries the pointer position, the movement since the last event and
      whether the left button is held. */
  datatype Event =
    | MouseButtonDown(pos: Point)
    | MouseButtonUp
    | MouseMotion(pos: Point, rel: Point, leftHeld: bool)
    | KeyDown(key: Key)
    | Quit

  /** The contents of the file a load dialog picks (None: the dialog was
      cancelled). */
  type LoadedFile = Option<seq<map<string, int>>>

  // ----------------------------------------------------------------- editor

  /** Unchanged walls have the same list of states. */
  twostate lemma {:induction false} NoWallChanged(new ws: seq<Wall>)
    requires old(allocated(ws))
    requires forall w :: w in ws ==> unchanged(w)
    ensures StatesOf(ws) == old(StatesOf(ws))
  {
    if ws != [] {
      assert ws[0] in ws;
      assert forall w :: w in ws[1..] ==> w in ws;
      NoWallChanged(ws[1..]);
      assert StatesOf(ws) == [ws[0].State()] + StatesOf(ws[1..]);
    }
  }

  /** When, of a list of distinct walls, only the `j`th may have changed,
      the list of states changes at `j` only. */
  twostate lemma {:induction false} OnlyOneWallChanged(new ws: seq<Wall>, j: nat)
    requires old(allocated(ws))
    requires j < |ws| && Distinct(ws)
    requires forall w :: w in ws && w != ws[j] ==> unchanged(w)
    ensures StatesOf(ws) == old(StatesOf(ws))[j := ws[j].State()]
  {
    assert forall w :: w in ws[1..] ==> w in ws;
    if j == 0 {
      assert forall w :: w in ws[1..] ==> w != ws[0];
      NoWallChanged(ws[1..]);
    } else {
      assert ws[0] in ws;
      OnlyOneWallChanged(ws[1..], j - 1);
    }
    assert StatesOf(ws) == [ws[0].State()] + StatesOf(ws[1..]);
  }

  class Editor {
    var walls: seq<Wall>
    var selectedWall: Wall?
    /** The rectangle of `copied_wall`; that wall is never listed or drawn,
        so only its rectangle matters. */
    var copied: Option<Rect>
    var isDragging: bool

    /** Every wall is listed once: walls are only ever added fresh. */
    predicate Valid()
      reads this`walls
    {
      Distinct(walls)
    }

    /** The globals as the script starts. */
    constructor ()
      ensures Valid() && walls == [] && selectedWall == null && copied == None && !isDragging
    {
      walls := [];
      selectedWall := null;
      copied := None;
      isDragging := false;
    }

    // ---------------------------------------------- effects, as predicates

    /** The walls in `ws`, and `sel` if any, keep their state. */
    twostate predicate Kept(ws: seq<Wall>, sel: Wall?)
      reads ws, sel
    {
      && (forall i :: 0 <= i < |ws| ==> ws[i].State() == old(ws[i].State()))
      && (sel != null ==> sel.State() == old(sel.State()))
    }

    /** Selection, copy and every wall state as they were. */
    twostate predicate Others(ws0: seq<Wall>, sel0: Wall?)
      reads this`walls, this`copied, this`selectedWall, ws0, sel0
    {
      selectedWall == sel0 && copied == old(copied) && Kept(ws0, sel0)
    }

    /** `walls.append` of a fresh wall with rectangle `r`. */
    twostate predicate Appended(ws0: seq<Wall>, r: Rect)
      reads this`walls, walls
    {
      && |walls| == |ws0| + 1 && walls[..|ws0|] == ws0
      && fresh(walls[|ws0|]) && walls[|ws0|].State() == FreshState(r)
    }

    /** `paste_wall` and the v key: append a wall at the origin the size of
        the copy, if there is one. */
    twostate predicate PasteDone(ws0: seq<Wall>, sel0: Wall?)
      reads this`walls, this`copied, this`selectedWall, walls, ws0, sel0
    {
      && Others(ws0, sel0)
      && (old(copied).None? ==> walls == ws0)
      && (old(copied).Some? ==> Appended(ws0, Rect(0, 0, old(copied).value.width, old(copied).value.height)))
    }

    /** `copy_wall`: copy the selected rectangle, then unselect that wall and
        clear the selection. Without a selection nothing changes. */
    twostate predicate CopyDone(ws0: seq<Wall>, sel0: Wall?)
      reads this`walls, this`copied, this`selectedWall, walls, ws0, sel0
    {
      && walls == ws0 && selectedWall == null
      && (sel0 == null ==> copied == old(copied) && Kept(ws0, null))
      && (sel0 != null ==>
            && copied == Some(old(sel0.rect))
            && sel0.State() == old(sel0.State()).(selected := false)
            && forall i :: 0 <= i < |ws0| && ws0[i] != sel0 ==> ws0[i].State() == old(ws0[i].State()))
    }

    /** The c key: copy the selected rectangle, keeping the selection. */
    twostate predicate KeyCopyDone(ws0: seq<Wall>, sel0: Wall?)
      reads this`walls, this`copied, this`selectedWall, walls, ws0, sel0
    {
      && walls == ws0 && selectedWall == sel0 && Kept(ws0, sel0)
      && copied == if sel0 != null then Some(old(sel0.rect)) else old(copied)
    }

    /** `delete_selected_wall`: remove the selected wall from the list (by
        identity) and clear the selection. The removal fails, and nothing
        changes, when the selected wall is no longer listed. */
    twostate predicate DeleteDone(ws0: seq<Wall>, sel0: Wall?, ok: bool)
      reads this`walls, this`copied, this`selectedWall, walls, ws0, sel0
    {
      && copied == old(copied) && Kept(ws0, sel0)
      && (ok <==> sel0 == null || sel0 in ws0)
      && (sel0 != null && ok ==> walls == RemoveFirst(ws0, sel0) && selectedWall == null)
      && (sel0 == null || !ok ==> walls == ws0 && selectedWall == sel0)
    }

    /** `load_walls`: replace the list by fresh walls built from the file's
        records; a record without a key aborts the load and keeps the list. */
    twostate predicate LoadDone(ws0: seq<Wall>, sel0: Wall?, file: LoadedFile, ok: bool)
      reads this`walls, this`copied, this`selectedWall, walls, ws0, sel0
    {
      && Others(ws0, sel0)
      && match file
         case None => ok && walls == ws0
         case Some(ds) =>
           && (ok <==> DecodeAll(ds).Some?)
           && (!ok ==> walls == ws0)
           && (ok ==> |walls| == |ds| && forall i :: 0 <= i < |ds| ==>
                 fresh(walls[i]) && walls[i].State() == FreshState(DecodeAll(ds).value[i]))
    }

    /** What clicking the button with action `a` does. */
    twostate predicate ActionDone(a: Action, ws0: seq<Wall>, sel0: Wall?, file: LoadedFile, ok: bool)
      reads this`walls, this`copied, this`selectedWall, walls, ws0, sel0
    {
      match a
      case AddWall => ok && Others(ws0, sel0) && Appended(ws0, Rect(100, 100, 50, 50))
      case CopyWall => ok && CopyDone(ws0, sel0)
      case PasteWall => ok && PasteDone(ws0, sel0)
      case ResetWorld => ok && Others(ws0, sel0) && walls == []
      case DeleteWall => DeleteDone(ws0, sel0, ok)
      case SaveWorld => ok && Others(ws0, sel0) && walls == ws0
      case LoadWorld => LoadDone(ws0, sel0, file, ok)
    }

    /** A mouse-down on the walls, as `Click` describes it: only the listed
        walls change, and `selected_wall` becomes the wall `Click` picks. */
    twostate predicate ScanDone(p: Point, ws0: seq<Wall>, sel0: Wall?)
      reads this`walls, this`copied, this`selectedWall, walls, ws0, sel0
    {
      && walls == ws0 && copied == old(copied)
      && var r := Click(old(StatesOf(ws0)), p);
         && StatesOf(walls) == r.walls
         && selectedWall == (if r.selected.Some? then ws0[r.selected.value] else sel0)
         && (sel0 != null && sel0 !in ws0 ==> sel0.State() == old(sel0.State()))
    }

    /** A mouse-down: the first button under the pointer runs its action;
        otherwise the walls are scanned. Either way dragging stops. */
    twostate predicate MouseDownDone(p: Point, ws0: seq<Wall>, sel0: Wall?, file: LoadedFile, ok: bool)
      reads this, walls, ws0, sel0
    {
      && !isDragging
      && match ButtonAt(p)
         case Some(a) => ActionDone(a, ws0, sel0, file, ok)
         case None => ok && ScanDone(p, ws0, sel0)
    }

    /** Only `sel0`, if any, may change among `ws0` and `sel0`. */
    twostate predicate OthersKept(ws0: seq<Wall>, sel0: Wall?)
      reads this`walls, this`copied, this`selectedWall, walls, ws0
    {
      && walls == ws0 && copied == old(copied) && selectedWall == sel0
      && forall i :: 0 <= i < |ws0| && ws0[i] != sel0 ==> ws0[i].State() == old(ws0[i].State())
    }

    /** A mouse-up ends any resize of the selected wall and stops dragging. */
    twostate predicate MouseUpDone(ws0: seq<Wall>, sel0: Wall?)
      reads this, walls, ws0, sel0
    {
      && OthersKept(ws0, sel0) && !isDragging
      && (sel0 != null ==> sel0.State() == old(sel0.State()).(resizing := false, resizeDir := None))
    }

    /** A motion: a resizing selected wall follows the pointer with its
        handle; otherwise, with the left button held, the selected wall moves
        by the pointer's movement and dragging starts. */
    twostate predicate MotionDone(pos: Point, rel: Point, leftHeld: bool, ws0: seq<Wall>, sel0: Wall?)
      reads this, walls, ws0, sel0
    {
      && OthersKept(ws0, sel0)
      && (sel0 == null ==> isDragging == old(isDragging))
      && (sel0 != null ==>
            var s := old(sel0.State());
            if s.resizing then
              && isDragging == old(isDragging)
              && sel0.State() == s.(rect := if s.resizeDir.Some? then Resize(s.rect, s.resizeDir.value, pos) else s.rect)
            else if leftHeld then
              && isDragging
              && sel0.State() == s.(rect := s.rect.(x := s.rect.x + rel.x, y := s.rect.y + rel.y))
            else
              isDragging == old(isDragging) && sel0.State() == s)
    }

    // --------------------------------------------------------- operations

    /** `spawn_wall`. */
    method SpawnWall()
      requires Valid()
      modifies this`walls
      ensures Valid() && Others(old(walls), old(selectedWall)) && Appended(old(walls), Rect(100, 100, 50, 50))
    {
      var w := new Wall(100, 100, 50, 50);
      walls := walls + [w];
    }

    /** `paste_wall`, and the v key, which does the same. */
    method PasteWall()
      requires Valid()
      modifies this`walls
      ensures Valid() && PasteDone(old(walls), old(selectedWall))
    {
      if copied.Some? {
        var w := new Wall(0, 0, copied.value.width, copied.value.height);
        walls := walls + [w];
      }
    }

    /** `copy_wall`. */
    method CopyWall()
      requires Valid()
      modifies this`copied, this`selectedWall, selectedWall
      ensures Valid() && CopyDone(old(walls), old(selectedWall))
    {
      if selectedWall != null {
        copied := Some(selectedWall.rect);
        selectedWall.selected := false;
        selectedWall := null;
      }
    }

    /** The c key. */
    method KeyCopy()
      requires Valid()
      modifies this`copied
      ensures Valid() && KeyCopyDone(old(walls), old(selectedWall))
    {
      if selectedWall != null {
        copied := Some(selectedWall.rect);
      }
    }

    /** `reset_world`: a new, empty list; the selection is left as it was. */
    method ResetWorld()
      requires Valid()
      modifies this`walls
      ensures Valid() && Others(old(walls), old(selectedWall)) && walls == []
    {
      walls := [];
    }

    /** `delete_selected_wall`; `ok` is false where `list.remove` raises. */
    method DeleteSelectedWall() returns (ok: bool)
      requires Valid()
      modifies this`walls, this`selectedWall
      ensures Valid() && DeleteDone(old(walls), old(selectedWall), ok)
    {
      if selectedWall == null {
        return true;
      }
      if selectedWall !in walls {
        return false;
      }
      RemoveFirstDistinct(walls, selectedWall);
      walls := RemoveFirst(walls, selectedWall);
      selectedWall := null;
      ok := true;
    }

    /** `save_walls`: the records written to the chosen file. */
    method SaveWalls() returns (records: seq<map<string, int>>)
      ensures records == Records(RectsOf(walls))
    {
      ghost var rs := RectsOf(walls);
      records := [];
      var i := 0;
      while i < |walls|
        invariant 0 <= i <= |walls|
        invariant records == Records(rs[..i])
      {
        records := records + [ToDict(walls[i].rect)];
        i := i + 1;
        assert records == Records(rs[..i]);
      }
      assert rs[..i] == rs;
    }

    /** `load_walls`. */
    method LoadWalls(file: LoadedFile) returns (ok: bool)
      requires Valid()
      modifies this`walls
      ensures Valid() && LoadDone(old(walls), old(selectedWall), file, ok)
    {
      if file.None? {
        return true;
      }
      var ds := file.value;
      var loaded: seq<Wall> := [];
      var i := 0;
      while i < |ds|
        invariant walls == old(walls)
        invariant 0 <= i <= |ds| && |loaded| == i && Distinct(loaded)
        invariant forall k :: 0 <= k < i ==> DictToRect(ds[k]).Some?
        invariant forall k :: 0 <= k < i ==>
                    fresh(loaded[k]) && loaded[k].State() == FreshState(DictToRect(ds[k]).value)
      {
        var w := Wall.FromDict(ds[i]);
        if w.None? {
          return false;
        }
        loaded := loaded + [w.value];
        i := i + 1;
      }
      walls := loaded;
      ok := true;
    }
  
    /** One button's action. */
    method RunAction(a: Action, file: LoadedFile) returns (ok: bool)
      requires Valid()
      modifies this`walls, this`copied, this`selectedWall, selectedWall
      ensures Valid() && ActionDone(a, old(walls), old(selectedWall), file, ok)
    {
      ok := true;
      match a
      case AddWall => SpawnWall();
      case CopyWall => CopyWall();
      case PasteWall => PasteWall();
      case ResetWorld => ResetWorld();
      case DeleteWall => ok := DeleteSelectedWall();
      case SaveWorld => var _ := SaveWalls();
      case LoadWorld => ok := LoadWalls(file);
    }

    /** One step of the scan of the walls: a wall under the click becomes
        selected, and grabbed when a handle is under the click too
        (`grabbed`); a wall elsewhere is unselected and stops resizing. */
    static method ScanWall(wall: Wall, p: Point) returns (grabbed: bool)
      modifies wall
      ensures grabbed == Grabs(old(wall.rect), p)
      ensures wall.State() == if grabbed then Grabbed(old(wall.State()), p) else Touched(old(wall.State()), p)
    {
      if !wall.rect.ContainsPoint(p) {
        wall.selected := false;
        wall.resizing := false;
        wall.resizeDir := None;
        return false;
      }
      wall.selected := true;
      var handles := GetHandles(wall.rect);
      var k := 0;
      while k < |handles| && !handles[k].ContainsPoint(p)
        invariant 0 <= k <= |handles|
        invariant forall m :: 0 <= m < k ==> !handles[m].ContainsPoint(p)
      {
        k := k + 1;
      }
      FirstContainingAt(handles, p, k);
      if k == |handles| {
        return false;
      }
      wall.resizing := true;
      wall.resizeDir := Some(HANDLES[k]);
      return true;
    }

    /** One turn of the loop over the walls, at wall `j`: the scan so far has
        touched the walls before `j` and found `last` under the click. Either
        the wall is grabbed and the click is complete, or the scan moves on
        to wall `j + 1`. */
    static method ScanStep(ws: seq<Wall>, p: Point, j: nat, ghost s0: seq<WallState>, last: Option<nat>)
      returns (grabbed: bool, last': Option<nat>)
      requires Distinct(ws) && j < |ws| == |s0| && j <= StopIndex(s0, p)
      requires StatesOf(ws) == TouchedUpTo(s0, p, j) && last == LastContaining(s0, p, j)
      modifies ws[j]
      ensures grabbed ==> Click(s0, p) == ClickResult(StatesOf(ws), last')
      ensures !grabbed ==> && j + 1 <= StopIndex(s0, p)
                           && StatesOf(ws) == TouchedUpTo(s0, p, j + 1)
                           && last' == LastContaining(s0, p, j + 1)
    {
      var wall := ws[j];
      StatesOfIndex(ws, j);
      TouchedUpToUntouched(s0, p, j, j);
      LastContainingStep(s0, p, j);
      last' := last;
      if wall.rect.ContainsPoint(p) {
        last' := Some(j);
      }
      label BeforeScan:
      grabbed := ScanWall(wall, p);
      OnlyOneWallChanged@BeforeScan(ws, j);
      if grabbed {
        ClickStopsAt(s0, p, j);
      } else {
        ScanPasses(s0, p, j);
      }
    }

    /** The loop over the walls on a mouse-down that missed the buttons:
        every wall up to the first one grabbed is scanned, and `last` is the
        last of them under the click (None when there is none). */
    static method ScanWalls(ws: seq<Wall>, p: Point) returns (last: Option<nat>)
      requires Distinct(ws)
      modifies ws
      ensures var r := Click(old(StatesOf(ws)), p);
              StatesOf(ws) == r.walls && last == r.selected
    {
      ghost var s0 := StatesOf(ws);
      last := None;
      var j := 0;
      while j < |ws|
        invariant j <= |ws| == |s0| && j <= StopIndex(s0, p)
        invariant StatesOf(ws) == TouchedUpTo(s0, p, j) && last == LastContaining(s0, p, j)
      {
        var grabbed;
        grabbed, last := ScanStep(ws, p, j, s0, last);
        if grabbed {
          return;
        }
        j := j + 1;
      }
      ClickRunsThrough(s0, p);
    }

    /** The scan of the walls on a mouse-down that missed the buttons. The
        last wall found under the click becomes `selected_wall` once the scan
        ends; nothing reads `selected_wall` during the scan, so this is the
        same as assigning it wall by wall. */
    method SelectAt(p: Point)
      requires Valid()
      modifies this`selectedWall, walls
      ensures ScanDone(p, old(walls), old(selectedWall))
    {
      var last := ScanWalls(walls, p);
      if last.Some? {
        selectedWall := walls[last.value];
      }
    }

    /** The loop over the buttons on a mouse-down: the position of the first
        button under `p`, or the number of buttons when there is none. */
    static method FindButton(p: Point) returns (i: nat)
      ensures i <= |BUTTONS|
      ensures i < |BUTTONS| ==> ButtonAt(p) == Some(BUTTONS[i].action)
      ensures i == |BUTTONS| ==> ButtonAt(p) == None
    {
      i := 0;
      while i < |BUTTONS| && !BUTTONS[i].rect.ContainsPoint(p)
        invariant 0 <= i <= |BUTTONS|
        invariant forall k :: 0 <= k < i ==> !BUTTONS[k].rect.ContainsPoint(p)
      {
        i := i + 1;
      }
      FirstContainingAt(ButtonRects(), p, i);
    }

    /** A mouse-down on the button with action `a`: dragging stops and the
        action runs. */
    method PressButton(a: Action, file: LoadedFile) returns (ok: bool)
      requires Valid()
      modifies this, walls, selectedWall
      ensures Valid() && !isDragging && ActionDone(a, old(walls), old(selectedWall), file, ok)
    {
      isDragging := false;
      ok := RunAction(a, file);
    }

    /** A mouse-down that misses the buttons: dragging stops and the walls
        are scanned. */
    method PressWalls(p: Point)
      requires Valid()
      modifies this, walls
      ensures Valid() && !isDragging && ScanDone(p, old(walls), old(selectedWall))
    {
      isDragging := false;
      SelectAt(p);
    }

    /** The mouse-down branch of `handle_mouse_events`. Dragging stops before
        the buttons are looked up in the source; the lookup does not depend on
        it, so here it stops once the target of the click is known. */
    method MouseButtonDown(p: Point, file: LoadedFile) returns (ok: bool)
      requires Valid()
      modifies this, walls, selectedWall
      ensures Valid() && MouseDownDone(p, old(walls), old(selectedWall), file, ok)
    {
      var i := FindButton(p);
      if i < |BUTTONS| {
        ok := PressButton(BUTTONS[i].action, file);
      } else {
        PressWalls(p);
        ok := true;
      }
    }

    /** The mouse-up branch of `handle_mouse_events`. */
    method MouseButtonUp()
      modifies this`isDragging, selectedWall
      ensures MouseUpDone(old(walls), old(selectedWall))
    {
      if selectedWall != null {
        selectedWall.resizing := false;
        selectedWall.resizeDir := None;
      }
      isDragging := false;
    }

    /** The motion branch of `handle_mouse_events`. */
    method MouseMotion(pos: Point, rel: Point, leftHeld: bool)
      modifies this`isDragging, selectedWall
      ensures MotionDone(pos, rel, leftHeld, old(walls), old(selectedWall))
    {
      if selectedWall != null && selectedWall.resizing {
        selectedWall.HandleResize(pos);
      } else if selectedWall != null && leftHeld {
        isDragging := true;
        selectedWall.rect := selectedWall.rect.(x := selectedWall.rect.x + rel.x);
        selectedWall.rect := selectedWall.rect.(y := selectedWall.rect.y + rel.y);
      }
    }

    /** `handle_mouse_events`; `ok` is false where a button's action raises. */
    method HandleMouseEvents(e: Event, file: LoadedFile) returns (ok: bool)
      requires Valid()
      modifies this, walls, selectedWall
      ensures Valid()
      ensures e.MouseButtonDown? ==> MouseDownDone(e.pos, old(walls), old(selectedWall), file, ok)
      ensures e.MouseButtonUp? ==> ok && MouseUpDone(old(walls), old(selectedWall))
      ensures e.MouseMotion? ==> ok && MotionDone(e.pos, e.rel, e.leftHeld, old(walls), old(selectedWall))
      ensures e.KeyDown? || e.Quit? ==>
                ok && walls == old(walls) && isDragging == old(isDragging) && Others(old(walls), old(selectedWall))
    {
      ok := true;
      match e
      case MouseButtonDown(pos) => ok := MouseButtonDown(pos, file);
      case MouseButtonUp => MouseButtonUp();
      case MouseMotion(pos, rel, leftHeld) => MouseMotion(pos, rel, leftHeld);
      case _ =>
    }

    /** `handle_keyboard_events`; `ok` is false where loading raises. */
    method HandleKeyboardEvents(e: Event, file: LoadedFile) returns (ok: bool)
      requires Valid()
      modifies this`walls, this`copied
      ensures Valid()
      ensures e == KeyDown(KeyC) ==> ok && KeyCopyDone(old(walls), old(selectedWall))
      ensures e == KeyDown(KeyV) ==> ok && PasteDone(old(walls), old(selectedWall))
      ensures e == KeyDown(KeyL) ==> LoadDone(old(walls), old(selectedWall), file, ok)
      ensures e !in {KeyDown(KeyC), KeyDown(KeyV), KeyDown(KeyL)} ==>
                ok && walls == old(walls) && Others(old(walls), old(selectedWall))
    {
      ok := true;
      match e
      case KeyDown(KeyC) => KeyCopy();
      case KeyDown(KeyV) => PasteWall();
      case KeyDown(KeyS) => var _ := SaveWalls();
      case KeyDown(KeyL) => ok := LoadWalls(file);
      case _ =>
    }
  }
}
