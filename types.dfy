/** The values and the one external object the extension works with:
    the table of remembered geometries, its records, frame rectangles and
    the shell's windows (`Meta.Window`), of which only the accessors the
    extension uses are kept. */
module Types {

  datatype Option<T> = None | Some(value: T)

  /** A window's frame rectangle, as returned by `get_frame_rect()`. */
  datatype Rect = Rect(x: int, y: int, width: int, height: int)

  /** One remembered geometry. `locked` is optional: records written by an
      older version of the extension have no such field. */
  datatype WindowGeometry = WindowGeometry(x: int, y: int, width: int, height: int, locked: Option<bool>)

  /** The whole remembered state, keyed by window class; it is also what the
      `tracked-windows` settings key holds, serialised. */
  type Table = map<string, WindowGeometry>

  /** The record the extension writes for a window whose frame is `r`. */
  function FromFrame(r: Rect, locked: bool): (g: WindowGeometry)
    ensures FrameOf(g) == r && g.locked == Some(locked)
  {
    WindowGeometry(r.x, r.y, r.width, r.height, Some(locked))
  }

  /** The rectangle a record restores a window to. */
  function FrameOf(g: WindowGeometry): (r: Rect)
  {
    Rect(g.x, g.y, g.width, g.height)
  }

  /** `Meta.WindowType`; the extension only ever distinguishes NORMAL. */
  datatype WindowType = Normal | Desktop | Dock | Dialog | ModalDialog | Toolbar | Menu | Utility | Splashscreen | Other

  /** A class of its own is a window class that JavaScript treats as true:
      `get_wm_class()` may return null, and the empty string is falsy too. */
  predicate HasClass(c: Option<string>): (r: bool)
    ensures !r <==> c == None || c == Some("")
  {
    c.Some? && c.value != ""
  }

  /** The shell's window object. The window manager changes its fields at
      any time; the extension only reads them, except for the move/resize
      it issues when restoring a window. */
  class Window {
    var windowType: WindowType
    var wmclass: Option<string>
    var frame: Rect

    constructor (windowType: WindowType, wmclass: Option<string>, frame: Rect)
      ensures this.windowType == windowType && this.wmclass == wmclass && this.frame == frame
    {
      this.windowType := windowType;
      this.wmclass := wmclass;
      this.frame := frame;
    }

    /** `move_resize_frame(true, x, y, width, height)`: takes effect at once. */
    method MoveResizeFrame(r: Rect)
      modifies this`frame
      ensures frame == r
    {
      frame := r;
    }
  }

  /** One entry of the list shown in the quick-settings menu. */
  datatype OpenWindow = OpenWindow(window: Window, wmclass: string, saved: bool, locked: bool)
}
