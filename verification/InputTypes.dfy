/** Requests, key strokes and pointer steps, as `src/input.rs` declares them. */
module InputTypes {

  /** Pointer events sent before the cancel check is made again. */
  const POINTER_BATCH: nat := 16

  datatype Button = Left | Right | Middle

  datatype MouseOp =
    | Move(x: int, y: int, clickable: bool)
    | Click(x: int, y: int, button: Button)
    | Scroll(x: int, y: int, deltaX: int, deltaY: int)
    | Drag(x: int, y: int, toX: int, toY: int, button: Button)

  datatype Point = Point(x: int, y: int)

  type Keysym = nat

  datatype Stroke = Stroke(keysym: Keysym, down: bool)

  datatype ScrollDirection = ScrollUp | ScrollDown | ScrollLeft | ScrollRight

  datatype PointerStep =
    | MoveTo(x: int, y: int)
    | Wheel(direction: ScrollDirection)
    | Press(button: Button, down: bool)
}
