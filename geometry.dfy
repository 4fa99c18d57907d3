/** Screen size and the clickable rectangular button used by the menus. */
module Geometry {

  const ScreenWidth: real := 800.0
  const ScreenHeight: real := 600.0

  function Abs(r: real): real {
    if r < 0.0 then -r else r
  }

  /** A menu button: centre (x, y), size and label. It is a plain value; the
      select screen builds its buttons afresh whenever it needs them. */
  datatype Button = Button(x: real, y: real, width: real, height: real, text: string)
  {
    /** A press hits the button when it lies strictly inside the rectangle. */
    predicate IsClicked(px: real, py: real)
      ensures IsClicked(px, py) ==> width > 0.0 && height > 0.0
    {
      x - width / 2.0 < px < x + width / 2.0 && y - height / 2.0 < py < y + height / 2.0
    }
  }

  /** A point on any of the four edges is not a click. */
  lemma EdgeIsNotClick(b: Button, px: real, py: real)
    requires px == b.x - b.width / 2.0 || px == b.x + b.width / 2.0
          || py == b.y - b.height / 2.0 || py == b.y + b.height / 2.0
    ensures !b.IsClicked(px, py)
  {
  }

  /** A button of positive size is hit at its centre. */
  lemma CentreIsClick(b: Button)
    requires b.width > 0.0 && b.height > 0.0
    ensures b.IsClicked(b.x, b.y)
  {
  }

  /** Two buttons are apart when their centres are separated by at least half
      their summed widths horizontally, or half their summed heights vertically. */
  predicate Apart(a: Button, b: Button)
  {
    Abs(a.x - b.x) >= (a.width + b.width) / 2.0 || Abs(a.y - b.y) >= (a.height + b.height) / 2.0
  }

  /** Buttons that are apart never take the same click. */
  lemma ApartNeverBothClicked(a: Button, b: Button, px: real, py: real)
    requires Apart(a, b)
    ensures !(a.IsClicked(px, py) && b.IsClicked(px, py))
  {
  }
}
