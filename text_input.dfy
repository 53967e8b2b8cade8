/** The text field (text_input.py): a box that a click activates, that takes
    typed characters while active, and that widens to fit its text. Font
    rendering is reduced to the width of the rendered text, a function the
    field is given. */
module TextInputs {
  import opened Rects

  /** The two colours the field is drawn in. */
  datatype Colour = LightSkyBlue3 | DodgerBlue2

  /** The keys the field tells apart. */
  datatype Key = ReturnKey | BackspaceKey | OtherKey

  /** The events the field reacts to; any other event type is ignored.
      `unicode` is the text the key produces (possibly empty). */
  datatype Event = MouseButtonDown(pos: Point) | KeyDown(key: Key, unicode: string) | OtherEvent

  /** The narrowest the box gets, and the room added around the text. */
  const MIN_WIDTH: int := 200
  const PADDING: int := 10

  /** The colour that goes with the activity flag. */
  function ColourFor(active: bool): Colour {
    if active then DodgerBlue2 else LightSkyBlue3
  }

  /** The text after a key press while the field is active: Return keeps
      it, Backspace drops the last character (Python's `text[:-1]`, which
      leaves empty text empty), any other key appends what it produces. */
  function Edited(text: string, key: Key, unicode: string): (t: string)
    ensures key == ReturnKey ==> t == text
    ensures key == BackspaceKey ==> t <= text && |t| == (if text == [] then 0 else |text| - 1)
    ensures key == OtherKey ==> |t| == |text| + |unicode| && t[..|text|] == text && t[|text|..] == unicode
  {
    match key
    case ReturnKey => text
    case BackspaceKey => if text == [] then text else text[..|text| - 1]
    case OtherKey => text + unicode
  }

  /** Backspace takes back a typed character. */
  lemma BackspaceUndoesTyping(text: string, c: char, u: string)
    ensures Edited(Edited(text, OtherKey, [c]), BackspaceKey, u) == text
  {
    var typed := Edited(text, OtherKey, [c]);
    assert typed[..|text|] == text;
  }

  /** `update`'s width rule: the rendered width plus padding, but never
      narrower than MIN_WIDTH. */
  function BoxWidth(rendered: int): (w: int)
    ensures w >= MIN_WIDTH && w >= rendered + PADDING
    ensures w == MIN_WIDTH || w == rendered + PADDING
  {
    if rendered + PADDING > MIN_WIDTH then rendered + PADDING else MIN_WIDTH
  }

  /** `TextInput`. `renderedText` stands for `txt_surface`, the text as last
      rendered; `textWidth` for the width the font renders a text at. */
  class TextInput {
    var rect: Rect
    var colour: Colour
    var text: string
    var renderedText: string
    var active: bool
    const textWidth: string -> int

    /** The surface always shows the current text, and the colour always
        matches the activity flag. */
    predicate Valid()
      reads this
    {
      renderedText == text && colour == ColourFor(active)
    }

    constructor (x: int, y: int, width: int, height: int, initialText: string, textWidth: string -> int)
      ensures Valid()
      ensures rect == Rect(x, y, width, height) && text == initialText && !active && this.textWidth == textWidth
    {
      rect := Rect(x, y, width, height);
      colour := LightSkyBlue3;
      text := initialText;
      renderedText := initialText;
      active := false;
      this.textWidth := textWidth;
    }

    /** `handle_event`. A click inside the box toggles it, a click outside
        deactivates it; keys act only while it is active, Return
        deactivating it and the others editing the text. */
    method HandleEvent(e: Event)
      requires Valid()
      modifies this`colour, this`text, this`renderedText, this`active
      ensures Valid()
      ensures e.MouseButtonDown? ==> active == (rect.ContainsPoint(e.pos) && !old(active)) && text == old(text)
      ensures e.KeyDown? && !old(active) ==> !active && text == old(text)
      ensures e.KeyDown? && old(active) ==> active == (e.key != ReturnKey) && text == Edited(old(text), e.key, e.unicode)
      ensures e.OtherEvent? ==> active == old(active) && text == old(text)
    {
      if e.MouseButtonDown? {
        if rect.ContainsPoint(e.pos) {
          active := !active;
        } else {
          active := false;
        }
        colour := if active then DodgerBlue2 else LightSkyBlue3;
      }
      if e.KeyDown? {
        if active {
          if e.key == ReturnKey {
            active := false;
            colour := LightSkyBlue3;
          } else if e.key == BackspaceKey {
            text := if text == [] then text else text[..|text| - 1];
          } else {
            text := text + e.unicode;
          }
          renderedText := text;
        }
      }
    }

    /** `update`: the box takes the width of the rendered text plus
        padding, at least MIN_WIDTH; nothing else changes. */
    method Update()
      requires Valid()
      modifies this`rect
      ensures rect == old(rect).(width := BoxWidth(textWidth(text)))
      ensures rect.width >= MIN_WIDTH
    {
      var width := if textWidth(renderedText) + PADDING > MIN_WIDTH then textWidth(renderedText) + PADDING else MIN_WIDTH;
      rect := rect.(width := width);
    }

    /** `get_text`. */
    method GetText() returns (t: string)
      ensures t == text
    {
      t := text;
    }
  }
}
