/** How React draws a value placed as a child (`{v}` in JSX): strings and
    numbers as text, nothing for `null`, `undefined` and booleans, an array as
    its items one after another, and a plain object not at all, since
    rendering it throws "Objects are not valid as a React child" and the whole
    render is abandoned. */
module React {
  import opened Js

  /** What a child draws: its text pieces in order, or the error that aborts
      the render. */
  datatype Drawn = Texts(pieces: seq<Value>) | Throws

  /** A plain object somewhere in `v`, looking inside arrays. */
  predicate HoldsObject(v: Value) {
    match v
    case Obj(_) => true
    case Arr(items) => exists i :: 0 <= i < |items| && HoldsObject(items[i])
    case _ => false
  }

  /** A single child. */
  function Child(v: Value): (r: Drawn)
    decreases v, 1
    ensures r.Throws? <==> HoldsObject(v)
    ensures r.Texts? ==> forall t :: t in r.pieces ==> t.Str? || t.Num?
    ensures v.Str? || v.Num? ==> r == Texts([v])
    ensures v.Null? || v.Bool? ==> r == Texts([])
  {
    match v
    case Obj(_) => Throws
    case Arr(items) => Children(items)
    case Str(_) => Texts([v])
    case Num(_) => Texts([v])
    case _ => Texts([])
  }

  /** The items of an array child, in order: the render throws if any item
      does. */
  function Children(items: seq<Value>): (r: Drawn)
    decreases items, 0
    ensures r.Throws? <==> exists i :: 0 <= i < |items| && HoldsObject(items[i])
    ensures r.Texts? ==> forall t :: t in r.pieces ==> t.Str? || t.Num?
  {
    if items == [] then Texts([])
    else
      var first := Child(items[0]);
      var rest := Children(items[1..]);
      if first.Throws? || rest.Throws? then Throws else Texts(first.pieces + rest.pieces)
  }
}
