/**
 * The part of the X server that the window manager reads and writes, as a
 * value. Every request the window manager sends is a function from one
 * server state to the next. A request naming a window that does not exist
 * (one destroyed before the request arrived) raises an X error, which the
 * window manager logs and ignores: the request then has no effect.
 */
module X11 {
  import opened Wrappers
  import opened Sequences

  /**
   * An X resource id. The server hands out ids carrying the client's
   * resource-id base, so no real window has one of the small reserved
   * values such as `None` (0).
   */
  type Window = nat

  /** The `None` resource id. */
  const NoWindow: Window := 0

  /** Atoms are interned once at startup; interning is injective, so an atom is its name. */
  type Atom = string

  const WM_PROTOCOLS: Atom := "WM_PROTOCOLS"
  const WM_DELETE_WINDOW: Atom := "WM_DELETE_WINDOW"
  const NET_WM_WINDOW_TYPE_DOCK: Atom := "_NET_WM_WINDOW_TYPE_DOCK"

  /** The `CurrentTime` timestamp. */
  const CurrentTime: int := 0

  /** Modifier mask bit of the Alt key (`Mod1Mask`, bit 3). */
  const Mod1Mask: bv32 := 8

  /** Value-mask bits of a ConfigureWindow request. */
  const CWX: bv32 := 1
  const CWY: bv32 := 2
  const CWWidth: bv32 := 4
  const CWHeight: bv32 := 8

  /** Position and size of a window (also used for a monitor's rectangle). */
  datatype Geometry = Geometry(x: int, y: int, width: int, height: int)

  /** A ClientMessage event: target window, message type, format and the first two `data.l` words. */
  datatype ClientMessage = ClientMessage(window: Window, messageType: Atom, format: int, data0: Atom, data1: int)

  /**
   * Server state visible to the window manager.
   * - geometry: every existing window and its geometry;
   * - stacking: the top-level windows, bottom to top, as XQueryTree reports them;
   * - mapped: windows that are mapped (for top-levels, the same as viewable);
   * - overrideRedirect: windows created with override-redirect set;
   * - windowType, protocols: the `_NET_WM_WINDOW_TYPE` and `WM_PROTOCOLS` properties, where set;
   * - focus: the input focus;
   * - clientList, activeWindow: the root's `_NET_CLIENT_LIST` and `_NET_ACTIVE_WINDOW` properties;
   * - managed: windows the window manager selected input on and installed its Alt-button grabs on;
   * - sent, killed: ClientMessages delivered and clients killed, in order.
   */
  datatype Display = Display(
    geometry: map<Window, Geometry>,
    stacking: seq<Window>,
    mapped: set<Window>,
    overrideRedirect: set<Window>,
    windowType: map<Window, seq<Atom>>,
    protocols: map<Window, seq<Atom>>,
    focus: Window,
    clientList: seq<Window>,
    activeWindow: Window,
    managed: set<Window>,
    sent: seq<ClientMessage>,
    killed: seq<Window>)

  /** XGetWindowAttributes: the window's geometry, if the window exists. */
  function GetGeometry(d: Display, w: Window): Option<Geometry>
  {
    if w in d.geometry then Some(d.geometry[w]) else None
  }

  /** XMoveResizeWindow; a zero or negative size is a BadValue error. */
  function MoveResizeWindow(d: Display, w: Window, g: Geometry): Display
  {
    if w in d.geometry && g.width > 0 && g.height > 0 then d.(geometry := d.geometry[w := g]) else d
  }

  /** XMoveWindow. */
  function MoveWindow(d: Display, w: Window, x: int, y: int): Display
  {
    if w in d.geometry then d.(geometry := d.geometry[w := d.geometry[w].(x := x, y := y)]) else d
  }

  /** XResizeWindow; a zero or negative size is a BadValue error. */
  function ResizeWindow(d: Display, w: Window, width: int, height: int): Display
  {
    if w in d.geometry && width > 0 && height > 0
    then d.(geometry := d.geometry[w := d.geometry[w].(width := width, height := height)])
    else d
  }

  /** XConfigureWindow, restricted to the position and size fields selected by `mask`. */
  function ConfigureWindow(d: Display, w: Window, changes: Geometry, mask: bv32): Display
  {
    if w !in d.geometry then d
    else
      var g := d.geometry[w];
      var g' := Geometry(
        if mask & CWX != 0 then changes.x else g.x,
        if mask & CWY != 0 then changes.y else g.y,
        if mask & CWWidth != 0 then changes.width else g.width,
        if mask & CWHeight != 0 then changes.height else g.height);
      if g'.width > 0 && g'.height > 0 then d.(geometry := d.geometry[w := g']) else d
  }

  /** XMapWindow. */
  function MapWindow(d: Display, w: Window): Display
  {
    if w in d.geometry then d.(mapped := d.mapped + {w}) else d
  }

  /** XSetInputFocus; focusing a window that is not viewable is a BadMatch error. */
  function SetInputFocus(d: Display, w: Window): Display
  {
    if w in d.geometry && w in d.mapped then d.(focus := w) else d
  }

  /** XRaiseWindow: the window moves to the top of the stacking order. */
  function RaiseWindow(d: Display, w: Window): Display
  {
    if w in d.geometry && w in d.stacking then d.(stacking := RemoveFirst(d.stacking, w) + [w]) else d
  }

  /** XSelectInput with the client event mask, then the two Alt-button XGrabButton calls. */
  function SelectInputAndGrab(d: Display, w: Window): Display
  {
    if w in d.geometry then d.(managed := d.managed + {w}) else d
  }

  /** XSendEvent. */
  function SendEvent(d: Display, m: ClientMessage): Display
  {
    if m.window in d.geometry then d.(sent := d.sent + [m]) else d
  }

  /** XKillClient. */
  function KillClient(d: Display, w: Window): Display
  {
    if w in d.geometry then d.(killed := d.killed + [w]) else d
  }

  /**
   * The twelve CARDINALs of `_NET_WM_STRUT_PARTIAL`, in the order of the
   * "Application Window Properties" section of the Extended Window Manager Hints.
   */
  datatype StrutPartial = StrutPartial(
    left: int, right: int, top: int, bottom: int,
    leftStartY: int, leftEndY: int, rightStartY: int, rightEndY: int,
    topStartX: int, topEndX: int, bottomStartX: int, bottomEndX: int)

  function DecodeStrutPartial(s: seq<int>): StrutPartial
    requires |s| == 12
  {
    StrutPartial(s[0], s[1], s[2], s[3], s[4], s[5], s[6], s[7], s[8], s[9], s[10], s[11])
  }

  /** The root-window pixel `(px, py)` lies in the rectangle `g`. */
  predicate Covers(g: Geometry, px: int, py: int)
  {
    g.x <= px < g.x + g.width && g.y <= py < g.y + g.height
  }

  /**
   * The root-window pixel `(px, py)` lies in the strip the top reservation
   * of `r` claims. Strut values are root-window coordinates, not relative
   * to any monitor, and the start and end columns are both included.
   */
  predicate InTopStrut(r: StrutPartial, px: int, py: int)
  {
    0 <= py < r.top && r.topStartX <= px <= r.topEndX
  }

  /** The same for the bottom reservation of `r` on a screen `screenHeight` pixels high. */
  predicate InBottomStrut(r: StrutPartial, screenHeight: int, px: int, py: int)
  {
    screenHeight - r.bottom <= py < screenHeight && r.bottomStartX <= px <= r.bottomEndX
  }
}
