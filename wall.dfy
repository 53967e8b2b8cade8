/** A wall of the arena: an integer rectangle plus the editor's transient
    selection and resize state (wall.py). */
module Walls {
  import opened Rects
  import opened Wrappers

  /** Side length of the square resize handles. */
  const HANDLE_SIZE: int := 5

  /** An edge of a rectangle. */
  datatype Edge = TopEdge | BottomEdge | LeftEdge | RightEdge {
    /** The word for the edge in the handle names. */
    function Word(): string {
      match this
      case TopEdge => "top"
      case BottomEdge => "bottom"
      case LeftEdge => "left"
      case RightEdge => "right"
    }
  }

  /** A resize handle. `resize_dir` only ever holds one of the eight handle
      names, or nothing, so it is modelled by this type. */
  datatype Handle = TopLeft | TopRight | BottomLeft | BottomRight | TopCenter | BottomCenter | LeftCenter | RightCenter {

    /** The two words of the handle's name. */
    function Words(): (string, string) {
      match this
      case TopLeft => ("top", "left")
      case TopRight => ("top", "right")
      case BottomLeft => ("bottom", "left")
      case BottomRight => ("bottom", "right")
      case TopCenter => ("top", "center")
      case BottomCenter => ("bottom", "center")
      case LeftCenter => ("left", "center")
      case RightCenter => ("right", "center")
    }

    /** The handle's name, as `resize_dir` holds it. */
    function Name(): string {
      Words().0 + "-" + Words().1
    }

    /** Whether dragging the handle moves edge `e`. */
    predicate Moves(e: Edge) {
      match this
      case TopLeft => e == TopEdge || e == LeftEdge
      case TopRight => e == TopEdge || e == RightEdge
      case BottomLeft => e == BottomEdge || e == LeftEdge
      case BottomRight => e == BottomEdge || e == RightEdge
      case TopCenter => e == TopEdge
      case BottomCenter => e == BottomEdge
      case LeftCenter => e == LeftEdge
      case RightCenter => e == RightEdge
    }
  }

  /** The eight resize handles, in the order `get_handles` lays them out. */
  const HANDLES: seq<Handle> := [TopLeft, TopRight, BottomLeft, BottomRight, TopCenter, BottomCenter, LeftCenter, RightCenter]

  /** The names are the strings the editor pairs with the handle squares. */
  lemma HandleNames()
    ensures && HANDLES[0].Name() == "top-left" && HANDLES[1].Name() == "top-right"
            && HANDLES[2].Name() == "bottom-left" && HANDLES[3].Name() == "bottom-right"
            && HANDLES[4].Name() == "top-center" && HANDLES[5].Name() == "bottom-center"
            && HANDLES[6].Name() == "left-center" && HANDLES[7].Name() == "right-center"
  {
  }

  /** The naming convention of the handles: a corner is named after the two
      edges it drags, a middle handle after its one edge and "center". */
  lemma NamedAfterEdges(h: Handle, e: Edge)
    ensures h.Moves(e) <==> e.Word() == h.Words().0 || e.Word() == h.Words().1
  {
  }

  /** `handle_resize` for a wall that is resizing by handle `h`: drag the
      handle to the mouse position `m`. Each edge the handle drags goes to the
      mouse, every other edge stays where it was. */
  function Resize(r: Rect, h: Handle, m: Point): (r': Rect)
    ensures r'.x == (if h.Moves(LeftEdge) then m.x else r.x)
    ensures r'.Right() == (if h.Moves(RightEdge) then m.x else r.Right())
    ensures r'.y == (if h.Moves(TopEdge) then m.y else r.y)
    ensures r'.Bottom() == (if h.Moves(BottomEdge) then m.y else r.Bottom())
  {
    match h
    case TopLeft => Rect(m.x, m.y, r.width + (r.x - m.x), r.height + (r.y - m.y))
    case TopRight => Rect(r.x, m.y, m.x - r.x, r.height + (r.y - m.y))
    case BottomLeft => Rect(m.x, r.y, r.width + (r.x - m.x), m.y - r.y)
    case BottomRight => Rect(r.x, r.y, m.x - r.x, m.y - r.y)
    case TopCenter => Rect(r.x, m.y, r.width, r.height + (r.y - m.y))
    case BottomCenter => Rect(r.x, r.y, r.width, m.y - r.y)
    case LeftCenter => Rect(m.x, r.y, r.width + (r.x - m.x), r.height)
    case RightCenter => Rect(r.x, r.y, m.x - r.x, r.height)
  }

  /** A handle of length HANDLE_SIZE starting at `start` is centred on an edge
      of length `len` starting at `lo`: the handle's midpoint lies on the
      edge's midpoint or half a unit past it. */
  predicate Centred(start: int, lo: int, len: int) {
    0 <= 2 * (start - lo) + HANDLE_SIZE - len <= 1
  }

  /** The eight handle squares of a rectangle, in the order of HANDLES. */
  function GetHandles(r: Rect): (hs: seq<Rect>)
    ensures |hs| == |HANDLES|
  {
    var hs := HANDLE_SIZE;
    [
      Rect(r.x, r.y, hs, hs),
      Rect(r.x + r.width - hs, r.y, hs, hs),
      Rect(r.x, r.y + r.height - hs, hs, hs),
      Rect(r.x + r.width - hs, r.y + r.height - hs, hs, hs),
      Rect(r.x + r.width / 2 - hs / 2, r.y, hs, hs),
      Rect(r.x + r.width / 2 - hs / 2, r.y + r.height - hs, hs, hs),
      Rect(r.x, r.y + r.height / 2 - hs / 2, hs, hs),
      Rect(r.x + r.width - hs, r.y + r.height / 2 - hs / 2, hs, hs)
    ]
  }

  /** Where the handles sit: each is a HANDLE_SIZE square; the corner squares
      sit flush inside the corners, the edge squares sit flush against their
      edge and centred along it. */
  lemma HandlesPlacement(r: Rect)
    ensures var hs := GetHandles(r);
            && (forall h <- hs :: h.width == HANDLE_SIZE && h.height == HANDLE_SIZE)
            && hs[0].x == r.x && hs[0].y == r.y
            && hs[1].Right() == r.Right() && hs[1].y == r.y
            && hs[2].x == r.x && hs[2].Bottom() == r.Bottom()
            && hs[3].Right() == r.Right() && hs[3].Bottom() == r.Bottom()
            && hs[4].y == r.y && Centred(hs[4].x, r.x, r.width)
            && hs[5].Bottom() == r.Bottom() && Centred(hs[5].x, r.x, r.width)
            && hs[6].x == r.x && Centred(hs[6].y, r.y, r.height)
            && hs[7].Right() == r.Right() && Centred(hs[7].y, r.y, r.height)
  {
  }

  /** The keys of a wall record. */
  const RECORD_KEYS: set<string> := {"x", "y", "width", "height"}

  /** `to_dict`: the record a wall is saved as. Reading it back gives the same
      rectangle. */
  function ToDict(r: Rect): (d: map<string, int>)
    ensures d.Keys == RECORD_KEYS
    ensures DictToRect(d) == Some(r)
  {
    map["x" := r.x, "y" := r.y, "width" := r.width, "height" := r.height]
  }

  /** The rectangle `from_dict` builds from a record; a record missing one of
      the four keys raises a key error, modelled as None. */
  function DictToRect(d: map<string, int>): (r: Option<Rect>)
    ensures r.Some? <==> RECORD_KEYS <= d.Keys
  {
    if "x" in d && "y" in d && "width" in d && "height" in d then
      Some(Rect(d["x"], d["y"], d["width"], d["height"]))
    else
      None
  }

  /** Everything a wall holds, as one value. */
  datatype WallState = WallState(rect: Rect, selected: bool, resizing: bool, resizeDir: Option<Handle>)

  /** The state of a freshly built wall: not selected, not resizing, no handle. */
  function FreshState(r: Rect): WallState {
    WallState(r, false, false, None)
  }

  class Wall {
    var rect: Rect
    var selected: bool
    var resizing: bool
    var resizeDir: Option<Handle>

    constructor (x: int, y: int, width: int, height: int)
      ensures State() == FreshState(Rect(x, y, width, height))
    {
      rect := Rect(x, y, width, height);
      selected := false;
      resizing := false;
      resizeDir := None;
    }

    function State(): WallState
      reads this
    {
      WallState(rect, selected, resizing, resizeDir)
    }

    /** `handle_resize`: while resizing, drag the current handle to `m`;
        otherwise nothing changes. Only the rectangle is ever written. */
    method HandleResize(m: Point)
      modifies this`rect
      ensures rect == if old(resizing) && old(resizeDir).Some?
                      then Resize(old(rect), old(resizeDir).value, m)
                      else old(rect)
    {
      if !resizing {
        return;
      }
      match resizeDir
      case Some(d) => rect := Resize(rect, d, m);
      case None =>
    }

    /** `from_dict`: a new wall with the record's rectangle, or None when the
        record lacks a key. */
    static method FromDict(d: map<string, int>) returns (w: Option<Wall>)
      ensures w.Some? <==> DictToRect(d).Some?
      ensures w.Some? ==> fresh(w.value) && w.value.State() == FreshState(DictToRect(d).value)
    {
      if "x" in d && "y" in d && "width" in d && "height" in d {
        var wall := new Wall(d["x"], d["y"], d["width"], d["height"]);
        w := Some(wall);
      } else {
        w := None;
      }
    }
  }

  /** The rectangles of a sequence of walls, in order. */
  function RectsOf(ws: seq<Wall>): (rs: seq<Rect>)
    reads ws
    ensures |rs| == |ws| && forall i :: 0 <= i < |ws| ==> rs[i] == ws[i].rect
  {
    if ws == [] then [] else [ws[0].rect] + RectsOf(ws[1..])
  }

  /** The states of a sequence of walls, in order. */
  function StatesOf(ws: seq<Wall>): (ss: seq<WallState>)
    reads ws
    ensures |ss| == |ws|
  {
    if ws == [] then [] else [ws[0].State()] + StatesOf(ws[1..])
  }

  /** The entry of `StatesOf(ws)` at `i` is the state of the wall at `i`. */
  lemma {:induction false} StatesOfIndex(ws: seq<Wall>, i: nat)
    requires i < |ws|
    ensures StatesOf(ws)[i] == ws[i].State()
  {
    if i > 0 {
      StatesOfIndex(ws[1..], i - 1);
    }
  }
}
