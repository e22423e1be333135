/** The application's rectangle store: the two rectangle lists and the current draw mode. */
module Data {
  import opened Types

  /** `data.rectangles`: the shade-guide rectangles and the tooth rectangles. */
  datatype Rectangles = Rectangles(shades: seq<Rect>, teeth: seq<Rect>)
  {
    /** `data.rectangles[kind]` for a real draw kind. */
    function Get(kind: DrawType): seq<Rect>
      requires kind != NoDraw
    {
      if kind == Shades then shades else teeth
    }

    /** `data.rectangles[kind].push(rect)`. */
    function Push(kind: DrawType, rect: Rect): (r: Rectangles)
      requires kind != NoDraw
      ensures r.Get(kind) == Get(kind) + [rect]
      ensures kind == Shades ==> r.teeth == teeth
      ensures kind == Teeth ==> r.shades == shades
    {
      if kind == Shades then Rectangles(shades + [rect], teeth)
      else Rectangles(shades, teeth + [rect])
    }
  }

  /** The store's state: `rectangles` and `currentDraw` (the hint and image flags are UI only). */
  datatype Store = Store(rectangles: Rectangles, currentDraw: DrawType)
}
