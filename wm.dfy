/**
 * The window manager's state logic: the client registry mirrored into the
 * root's `_NET_CLIENT_LIST`, placement of newly mapped windows between the
 * top bar and the dock, focus, the Alt-drag move/resize state machine, the
 * Alt+F4 / Alt+Tab / Alt+Space / Alt+Return bindings, adoption of windows
 * that already exist at startup, and the event dispatch loop.
 */
module WindowManager {
  import opened CInt
  import opened Sequences
  import opened X11

  /** Capacity of the client table. */
  const MAX_CLIENTS: nat := 256

  /** Space the window manager reserves for the top bar and for the dock. */
  const TOPBAR_H: int := 32
  const DOCK_H: int := 72

  /** Smallest size an Alt+right-drag can resize a window to. */
  const MIN_WIDTH: int := 100
  const MIN_HEIGHT: int := 60

  /** Keysyms of the global bindings. */
  const XK_F4: nat := 0xFFC1
  const XK_Tab: nat := 0xFF09
  const XK_space: nat := 0x0020
  const XK_Return: nat := 0xFF0D

  /** Programs started by Alt+Space and Alt+Return. */
  const LAUNCHER: string := "blazeneuro-launcher"
  const TERMINAL: string := "blazeneuro-terminal"

  /** `drag_mode`: 0 none, 1 move, 2 resize. */
  datatype DragMode = Idle | Moving | Resizing

  /** `drag_win`, the pointer anchor, the window's geometry at press time, and `drag_mode`. */
  datatype DragState = DragState(win: Window, startX: int, startY: int, start: Geometry, mode: DragMode)
  {
    /** A drag target exists exactly while a mode is set. */
    ghost predicate Valid()
    {
      (win == NoWindow) == (mode == Idle)
    }
  }

  const NoDrag: DragState := DragState(NoWindow, 0, 0, Geometry(0, 0, 0, 0), Idle)

  datatype ButtonEvent = ButtonEvent(subwindow: Window, state: bv32, button: nat, xRoot: int, yRoot: int)

  /** The server events the loop dispatches; every other kind is ignored. */
  datatype Event =
    | MapRequest(window: Window)
    | ConfigureRequest(window: Window, changes: Geometry, valueMask: bv32)
    | UnmapNotify(window: Window)
    | DestroyNotify(window: Window)
    | ButtonPress(press: ButtonEvent)
    | ButtonRelease(release: ButtonEvent)
    | MotionNotify(xRoot: int, yRoot: int)
    | KeyPress(state: bv32, keysym: nat)
    | OtherEvent

  /**
   * XGetWindowAttributes as the handlers use it. Its result is not checked;
   * for a window that no longer exists the model reads a zero geometry.
   */
  function Attributes(d: Display, w: Window): Geometry
  {
    if w in d.geometry then d.geometry[w] else Geometry(0, 0, 0, 0)
  }

  /** `is_dock`: only the first atom of `_NET_WM_WINDOW_TYPE` is fetched and compared. */
  predicate IsDock(d: Display, w: Window)
  {
    w in d.windowType && |d.windowType[w]| > 0 && d.windowType[w][0] == NET_WM_WINDOW_TYPE_DOCK
  }

  /**
   * Geometry given to a newly mapped window whose requested size is
   * `reqW` x `reqH`, on a `sw` x `sh` screen: the window keeps inside the
   * screen's width and the band between the top bar and the dock, and is
   * centred in them (odd slack leaves the extra pixel on the right / below).
   */
  function Placement(sw: int, sh: int, reqW: int, reqH: int): (g: Geometry)
    ensures var availH := sh - TOPBAR_H - DOCK_H;
      && (reqW > 0 ==> g.width == Min(reqW, sw))
      && (reqW <= 0 && sw >= 0 ==> g.width == Quot(sw * 2, 3))
      && (reqH > 0 ==> g.height == Min(reqH, availH))
      && (reqH <= 0 && availH >= 0 ==> g.height == Quot(availH * 2, 3))
      && 0 <= g.x && g.x + g.width <= sw
      && g.x <= sw - (g.x + g.width) <= g.x + 1
      && TOPBAR_H <= g.y && g.y + g.height <= sh - DOCK_H
      && g.y - TOPBAR_H <= (sh - DOCK_H) - (g.y + g.height) <= g.y - TOPBAR_H + 1
      && ((reqW > 0 && sw > 0) || sw >= 2 ==> g.width > 0)
      && ((reqH > 0 && availH > 0) || availH >= 2 ==> g.height > 0)
  {
    var availW := sw;
    var availH := sh - TOPBAR_H - DOCK_H;
    var w := Min(if reqW > 0 then reqW else Quot(availW * 2, 3), availW);
    var h := Min(if reqH > 0 then reqH else Quot(availH * 2, 3), availH);
    Geometry(Quot(availW - w, 2), TOPBAR_H + Quot(availH - h, 2), w, h)
  }

  /**
   * `focus_window`: set the input focus, raise the window, publish it as
   * `_NET_ACTIVE_WINDOW`. Nothing else on the server changes.
   */
  function FocusWindow(d: Display, w: Window): (r: Display)
    ensures r == d.(focus := r.focus, stacking := r.stacking, activeWindow := w)
  {
    SetActiveWindow(RaiseWindow(SetInputFocus(d, w), w), w)
  }

  /**
   * Focusing a window gives it the input focus when it is viewable and puts
   * it on top of the stacking order, which stays a permutation of itself.
   */
  lemma FocusRaises(d: Display, w: Window)
    ensures var r := FocusWindow(d, w);
      && r.focus == (if w in d.geometry && w in d.mapped then w else d.focus)
      && (w in d.geometry && w in d.stacking ==>
            |r.stacking| == |d.stacking| && r.stacking[|r.stacking| - 1] == w
            && multiset(r.stacking) == multiset(d.stacking))
      && (!(w in d.geometry && w in d.stacking) ==> r.stacking == d.stacking)
  {
    RemoveFirstMultiset(d.stacking, w);
  }

  function SetActiveWindow(d: Display, w: Window): Display
  {
    d.(activeWindow := w)
  }

  /** The requests `handle_map_request` sends for a non-dock window before registering it. */
  function Manage(d: Display, w: Window, g: Geometry): Display
  {
    MapWindow(SelectInputAndGrab(MoveResizeWindow(d, w, g), w), w)
  }

  /** The ICCCM `WM_DELETE_WINDOW` request (section 4.2.8.1 of the ICCCM). */
  function DeleteMessage(w: Window): ClientMessage
  {
    ClientMessage(w, WM_PROTOCOLS, 32, WM_DELETE_WINDOW, CurrentTime)
  }

  /** The window lists `WM_DELETE_WINDOW` in its `WM_PROTOCOLS` property. */
  predicate SupportsDelete(d: Display, w: Window)
  {
    w in d.protocols && WM_DELETE_WINDOW in d.protocols[w]
  }

  /** What `send_delete` does to the server: a polite request when supported, else a kill. */
  function CloseWindow(d: Display, w: Window): Display
  {
    if SupportsDelete(d, w) then SendEvent(d, DeleteMessage(w)) else KillClient(d, w)
  }

  /** The scan in `send_delete` over the window's `WM_PROTOCOLS` atoms. */
  method AdvertisesDelete(protocols: seq<Atom>) returns (found: bool)
    ensures found <==> WM_DELETE_WINDOW in protocols
  {
    found := false;
    var i := 0;
    while i < |protocols|
      invariant 0 <= i <= |protocols|
      invariant WM_DELETE_WINDOW !in protocols[..i]
    {
      if protocols[i] == WM_DELETE_WINDOW {
        found := true;
        break;
      }
      i := i + 1;
    }
  }

  /** Position an Alt+left-drag moves its window to: the start position plus the pointer's travel, unclamped. */
  function MoveTarget(d: DragState, xRoot: int, yRoot: int): (p: (int, int))
    ensures p.0 - d.start.x == xRoot - d.startX
    ensures p.1 - d.start.y == yRoot - d.startY
  {
    (d.start.x + (xRoot - d.startX), d.start.y + (yRoot - d.startY))
  }

  /** Size an Alt+right-drag resizes its window to: the start size plus the pointer's travel, floored at 100 x 60. */
  function ResizeTarget(d: DragState, xRoot: int, yRoot: int): (s: (int, int))
    ensures s.0 >= MIN_WIDTH && s.1 >= MIN_HEIGHT
    ensures d.start.width + (xRoot - d.startX) >= MIN_WIDTH ==> s.0 == d.start.width + (xRoot - d.startX)
    ensures d.start.height + (yRoot - d.startY) >= MIN_HEIGHT ==> s.1 == d.start.height + (yRoot - d.startY)
    ensures d.start.width + (xRoot - d.startX) < MIN_WIDTH ==> s.0 == MIN_WIDTH
    ensures d.start.height + (yRoot - d.startY) < MIN_HEIGHT ==> s.1 == MIN_HEIGHT
  {
    (Max(MIN_WIDTH, d.start.width + (xRoot - d.startX)), Max(MIN_HEIGHT, d.start.height + (yRoot - d.startY)))
  }

  /** Whether `scan_existing` adopts a window: its attributes can be read, it is viewable and not override-redirect. */
  predicate CanAdopt(d: Display, w: Window)
  {
    w in d.geometry && w in d.mapped && w !in d.overrideRedirect
  }

  /** The windows of `ws` that `scan_existing` adopts, in order. Docks are not excluded. */
  function Adoptable(d: Display, ws: seq<Window>): (r: seq<Window>)
    ensures forall w :: w in r <==> w in ws && CanAdopt(d, w)
    ensures |r| <= |ws|
  {
    if ws == [] then []
    else
      var w := ws[|ws| - 1];
      assert ws == ws[..|ws| - 1] + [w];
      Adoptable(d, ws[..|ws| - 1]) + (if CanAdopt(d, w) then [w] else [])
  }

  /** The registry together with the server: what `add_client` and `scan_existing` change. */
  datatype Registry = Registry(clients: seq<Window>, server: Display)

  /** `add_client` on values: append and publish unless the table is full. */
  function AddClientTo(r: Registry, w: Window): Registry
  {
    if |r.clients| < MAX_CLIENTS then Registry(r.clients + [w], r.server.(clientList := r.clients + [w])) else r
  }

  /** `remove_client` on values: drop the first occurrence and publish; an unregistered window changes nothing. */
  function RemoveClientFrom(r: Registry, w: Window): Registry
  {
    if w in r.clients then
      var rest := RemoveFirst(r.clients, w);
      Registry(rest, r.server.(clientList := rest))
    else r
  }

  lemma RemoveClientAt(r: Registry, w: Window, i: nat)
    requires i < |r.clients| && r.clients[i] == w && w !in r.clients[..i]
    ensures var rest := r.clients[..i] + r.clients[i + 1..];
      RemoveClientFrom(r, w) == Registry(rest, r.server.(clientList := rest))
  {
    RemoveFirstAt(r.clients, w, i);
  }

  /** The root's `_NET_CLIENT_LIST` holds the registry's windows, in some order. */
  ghost predicate Synced(r: Registry)
  {
    multiset(r.server.clientList) == multiset(r.clients)
  }

  /**
   * Registering a new window and then unregistering it restores the
   * registry and the published list exactly.
   */
  lemma AddThenRemove(r: Registry, w: Window)
    requires |r.clients| < MAX_CLIENTS && w !in r.clients && r.server.clientList == r.clients
    ensures RemoveClientFrom(AddClientTo(r, w), w) == r
  {
    var s := r.clients + [w];
    assert s[..|r.clients|] == r.clients;
    assert s[|r.clients| + 1..] == [];
    RemoveFirstAt(s, w, |r.clients|);
    assert AddClientTo(r, w) == Registry(s, r.server.(clientList := s));
    assert RemoveFirst(s, w) == r.clients;
  }

  /**
   * Unregistering takes exactly one copy of the window out of the registry,
   * leaves the others in order, and keeps the published list in sync.
   */
  lemma RemoveClientForgets(r: Registry, w: Window)
    ensures var r' := RemoveClientFrom(r, w);
      && multiset(r'.clients) == multiset(r.clients) - multiset{w}
      && (Synced(r) ==> Synced(r'))
      && (w in r.clients ==> |r'.clients| == |r.clients| - 1)
  {
    RemoveFirstMultiset(r.clients, w);
    if w !in r.clients {
      assert multiset(r.clients)[w] == 0;
    }
  }

  /** One iteration of the loop in `scan_existing`. */
  function AdoptStep(r: Registry, w: Window): Registry
  {
    if CanAdopt(r.server, w) then AddClientTo(Registry(r.clients, SelectInputAndGrab(r.server, w)), w) else r
  }

  /** The loop in `scan_existing` over the windows `ws`, in order. */
  function Scan(r: Registry, ws: seq<Window>): Registry
  {
    if ws == [] then r else AdoptStep(Scan(r, ws[..|ws| - 1]), ws[|ws| - 1])
  }

  lemma ScanPrefix(r: Registry, ws: seq<Window>, i: nat)
    requires i < |ws|
    ensures Scan(r, ws[..i + 1]) == AdoptStep(Scan(r, ws[..i]), ws[i])
  {
    assert ws[..i + 1][..i] == ws[..i];
  }

  /** The scan appends the adoptable windows to the registry, in order, until it is full. */
  lemma {:induction false} ScanRegistersViewable(r: Registry, ws: seq<Window>)
    requires |r.clients| <= MAX_CLIENTS
    ensures Scan(r, ws).clients == Capped(r.clients + Adoptable(r.server, ws), MAX_CLIENTS)
  {
    if ws != [] {
      var init := ws[..|ws| - 1];
      var w := ws[|ws| - 1];
      assert ws == init + [w];
      ScanRegistersViewable(r, init);
      ScanKeepsAttributes(r, init);
      var a := Adoptable(r.server, init);
      if CanAdopt(r.server, w) {
        assert Adoptable(r.server, ws) == a + [w];
        CappedAppend(r.clients + a, w, MAX_CLIENTS);
        assert r.clients + (a + [w]) == r.clients + a + [w];
      } else {
        assert Adoptable(r.server, ws) == a;
      }
    }
  }

  /** The scan changes nothing on the server but the managed set and the published client list. */
  lemma {:induction false} ScanKeepsAttributes(r: Registry, ws: seq<Window>)
    ensures var d := Scan(r, ws).server;
      d == r.server.(managed := d.managed, clientList := d.clientList)
  {
    if ws != [] {
      ScanKeepsAttributes(r, ws[..|ws| - 1]);
    }
  }

  /** Every adoptable window is managed, whether or not it still fitted in the registry. */
  lemma {:induction false} ScanManagesViewable(r: Registry, ws: seq<Window>)
    ensures Scan(r, ws).server.managed == r.server.managed + Elements(Adoptable(r.server, ws))
  {
    if ws != [] {
      var init := ws[..|ws| - 1];
      var w := ws[|ws| - 1];
      assert ws == init + [w];
      ScanManagesViewable(r, init);
      ScanKeepsAttributes(r, init);
      var a := Adoptable(r.server, init);
      if CanAdopt(r.server, w) {
        assert Adoptable(r.server, ws) == a + [w];
        ElementsAppend(a, w);
      } else {
        assert Adoptable(r.server, ws) == a;
      }
    }
  }

  /** The published client list is the registry once the scan added anything, and is untouched otherwise. */
  lemma {:induction false} ScanPublishes(r: Registry, ws: seq<Window>)
    requires |r.clients| <= MAX_CLIENTS
    ensures var s := Scan(r, ws);
      s.server.clientList == if |s.clients| > |r.clients| then s.clients else r.server.clientList
  {
    if ws != [] {
      var init := ws[..|ws| - 1];
      ScanPublishes(r, init);
      ScanRegistersViewable(r, init);
      ScanRegistersViewable(r, ws);
    }
  }

  /** Everything the event handlers change: the registry, the server, the drag state and the programs started. */
  datatype Snapshot = Snapshot(clients: seq<Window>, server: Display, drag: DragState, spawned: seq<string>)

  /** The registry and the published list are in sync and the table is not over-full. */
  ghost predicate SnapshotValid(s: Snapshot)
  {
    |s.clients| <= MAX_CLIENTS && Synced(Registry(s.clients, s.server))
  }

  /** `handle_unmap` / `handle_destroy`: `remove_client`. */
  function Unregister(s: Snapshot, w: Window): Snapshot
  {
    var r := RemoveClientFrom(Registry(s.clients, s.server), w);
    s.(clients := r.clients, server := r.server)
  }

  /** `handle_map_request`. */
  function MapRequestStep(sw: int, sh: int, s: Snapshot, w: Window): Snapshot
  {
    if IsDock(s.server, w) then s.(server := MapWindow(s.server, w))
    else
      var a := Attributes(s.server, w);
      var r := AddClientTo(Registry(s.clients, Manage(s.server, w, Placement(sw, sh, a.width, a.height))), w);
      s.(clients := r.clients, server := FocusWindow(r.server, w))
  }

  /** `handle_button_press`. */
  function PressStep(s: Snapshot, b: ButtonEvent): Snapshot
  {
    if b.subwindow == NoWindow then s
    else
      s.(server := FocusWindow(s.server, b.subwindow),
         drag := if b.state & Mod1Mask != 0
                 then DragState(b.subwindow, b.xRoot, b.yRoot, Attributes(s.server, b.subwindow),
                                if b.button == 1 then Moving else Resizing)
                 else s.drag)
  }

  /** `handle_motion`. */
  function MotionStep(s: Snapshot, xRoot: int, yRoot: int): Snapshot
  {
    if s.drag.win == NoWindow then s
    else if s.drag.mode == Moving then
      var p := MoveTarget(s.drag, xRoot, yRoot);
      s.(server := MoveWindow(s.server, s.drag.win, p.0, p.1))
    else if s.drag.mode == Resizing then
      var z := ResizeTarget(s.drag, xRoot, yRoot);
      s.(server := ResizeWindow(s.server, s.drag.win, z.0, z.1))
    else s
  }

  /** `handle_key_press` on the root window `root`. */
  function KeyStep(root: Window, s: Snapshot, state: bv32, sym: nat): Snapshot
  {
    if state & Mod1Mask == 0 then s
    else if sym == XK_F4 then
      if s.server.focus != NoWindow && s.server.focus != root then s.(server := CloseWindow(s.server, s.server.focus)) else s
    else if sym == XK_Tab then
      if |s.clients| > 1 then s.(clients := RotateLeft(s.clients), server := FocusWindow(s.server, s.clients[1])) else s
    else if sym == XK_space then s.(spawned := s.spawned + [LAUNCHER])
    else if sym == XK_Return then s.(spawned := s.spawned + [TERMINAL])
    else s
  }

  /** One pass of the event loop's `switch`, for root `root` on an `sw` x `sh` screen. */
  function Step(root: Window, sw: int, sh: int, s: Snapshot, ev: Event): Snapshot
  {
    match ev
    case MapRequest(w) => MapRequestStep(sw, sh, s, w)
    case ConfigureRequest(w, changes, mask) => s.(server := ConfigureWindow(s.server, w, changes, mask))
    case UnmapNotify(w) => Unregister(s, w)
    case DestroyNotify(w) => Unregister(s, w)
    case ButtonPress(b) => PressStep(s, b)
    case ButtonRelease(_) => s.(drag := s.drag.(win := NoWindow, mode := Idle))
    case MotionNotify(xr, yr) => MotionStep(s, xr, yr)
    case KeyPress(state, sym) => KeyStep(root, s, state, sym)
    case OtherEvent => s
  }

  /** The events handled in order. */
  function Steps(root: Window, sw: int, sh: int, s: Snapshot, events: seq<Event>): Snapshot
  {
    if events == [] then s
    else Step(root, sw, sh, Steps(root, sw, sh, s, events[..|events| - 1]), events[|events| - 1])
  }

  lemma StepsPrefix(root: Window, sw: int, sh: int, s: Snapshot, events: seq<Event>, i: nat)
    requires i < |events|
    ensures Steps(root, sw, sh, s, events[..i + 1]) == Step(root, sw, sh, Steps(root, sw, sh, s, events[..i]), events[i])
  {
    assert events[..i + 1][..i] == events[..i];
  }

  lemma MapRequestKeepsSync(sw: int, sh: int, s: Snapshot, w: Window)
    requires SnapshotValid(s)
    ensures SnapshotValid(MapRequestStep(sw, sh, s, w))
  {
    if !IsDock(s.server, w) {
      var a := Attributes(s.server, w);
      var m := Manage(s.server, w, Placement(sw, sh, a.width, a.height));
      assert m.clientList == s.server.clientList;
      var r := AddClientTo(Registry(s.clients, m), w);
      assert FocusWindow(r.server, w).clientList == r.server.clientList;
    }
  }

  lemma PressKeepsSync(s: Snapshot, b: ButtonEvent)
    requires SnapshotValid(s)
    ensures SnapshotValid(PressStep(s, b))
  {
    if b.subwindow != NoWindow {
      assert FocusWindow(s.server, b.subwindow).clientList == s.server.clientList;
    }
  }

  lemma MotionKeepsSync(s: Snapshot, xRoot: int, yRoot: int)
    requires SnapshotValid(s)
    ensures SnapshotValid(MotionStep(s, xRoot, yRoot))
  {
  }

  lemma KeyKeepsSync(root: Window, s: Snapshot, state: bv32, sym: nat)
    requires SnapshotValid(s)
    ensures SnapshotValid(KeyStep(root, s, state, sym))
  {
    if state & Mod1Mask != 0 && sym == XK_Tab && |s.clients| > 1 {
      assert FocusWindow(s.server, s.clients[1]).clientList == s.server.clientList;
    }
  }

  /**
   * No event breaks the registry: it never holds more than 256 windows and
   * `_NET_CLIENT_LIST` keeps holding exactly its windows.
   */
  lemma StepKeepsSync(root: Window, sw: int, sh: int, s: Snapshot, ev: Event)
    requires SnapshotValid(s)
    ensures SnapshotValid(Step(root, sw, sh, s, ev))
  {
    match ev
    case MapRequest(w) => MapRequestKeepsSync(sw, sh, s, w);
    case UnmapNotify(w) => RemoveClientForgets(Registry(s.clients, s.server), w);
    case DestroyNotify(w) => RemoveClientForgets(Registry(s.clients, s.server), w);
    case ConfigureRequest(_, _, _) =>
    case ButtonPress(b) => PressKeepsSync(s, b);
    case ButtonRelease(_) =>
    case MotionNotify(xr, yr) => MotionKeepsSync(s, xr, yr);
    case KeyPress(state, sym) => KeyKeepsSync(root, s, state, sym);
    case OtherEvent =>
  }

  /** Every sequence of events keeps the registry within its table and in sync with `_NET_CLIENT_LIST`. */
  lemma {:induction false} StepsKeepSync(root: Window, sw: int, sh: int, s: Snapshot, events: seq<Event>)
    requires SnapshotValid(s)
    ensures SnapshotValid(Steps(root, sw, sh, s, events))
  {
    if events != [] {
      StepsKeepSync(root, sw, sh, s, events[..|events| - 1]);
      StepKeepsSync(root, sw, sh, Steps(root, sw, sh, s, events[..|events| - 1]), events[|events| - 1]);
    }
  }

  class Manager {
    /** The root window and the screen size, fixed at startup. */
    const root: Window
    const sw: int
    const sh: int

    /** `clients[0..nclients)`: the registry, in mapping order rotated by Alt+Tab. */
    const clients: array<Window>
    var nclients: nat

    /** The server as the window manager sees it. */
    var x: Display

    var drag: DragState

    /** Cleared by SIGTERM / SIGINT; the event loop stops when it is false. */
    var running: bool

    /** Helper programs started by the bindings, in order. */
    var spawned: seq<string>

    ghost predicate Valid()
      reads this
    {
      clients.Length == MAX_CLIENTS && nclients <= MAX_CLIENTS && drag.Valid()
    }

    ghost function Clients(): seq<Window>
      reads this, clients
      requires Valid()
    {
      clients[..nclients]
    }

    /** The registry and the server, as one value. */
    ghost function State(): Registry
      reads this, clients
      requires Valid()
    {
      Registry(Clients(), x)
    }

    /** What the handlers change, as one value. */
    ghost function Snap(): Snapshot
      reads this, clients
      requires Valid()
    {
      Snapshot(Clients(), x, drag, spawned)
    }

    /** The published `_NET_CLIENT_LIST` holds the registry's windows (Alt+Tab reorders only the registry). */
    ghost predicate ClientListInSync()
      reads this, clients
      requires Valid()
    {
      Synced(State())
    }

    /** State of `main` once the display is open, before the existing windows are scanned. */
    constructor (root: Window, sw: int, sh: int, server: Display)
      ensures Valid() && Clients() == []
      ensures this.root == root && this.sw == sw && this.sh == sh
      ensures x == server && drag == NoDrag && running && spawned == []
    {
      this.root := root;
      this.sw := sw;
      this.sh := sh;
      clients := new Window[MAX_CLIENTS];
      nclients := 0;
      x := server;
      drag := NoDrag;
      running := true;
      spawned := [];
    }

    /** `add_client`: append and republish; a full table is left as it is. No duplicate check. */
    method AddClient(w: Window)
      requires Valid()
      modifies this, clients
      ensures Valid() && State() == AddClientTo(old(State()), w)
      ensures drag == old(drag) && running == old(running) && spawned == old(spawned)
    {
      if nclients < MAX_CLIENTS {
        clients[nclients] := w;
        nclients := nclients + 1;
        x := x.(clientList := clients[..nclients]);
      }
    }

    /** The search loop of `remove_client`: the index of the first occurrence of `w`, or `nclients` when there is none. */
    method FindClient(w: Window) returns (i: nat)
      requires Valid()
      ensures i <= nclients && w !in clients[..i]
      ensures i < nclients ==> clients[i] == w
    {
      i := 0;
      while i < nclients && clients[i] != w
        invariant 0 <= i <= nclients
        invariant w !in clients[..i]
      {
        i := i + 1;
      }
    }

    /** The `memmove` that closes the gap at index `i`. */
    method ShiftLeft(i: nat)
      requires Valid() && i < nclients
      modifies clients
      ensures clients[..nclients - 1] == old(clients[..i]) + old(clients[i + 1..nclients])
    {
      var j := i;
      while j < nclients - 1
        invariant i <= j <= nclients - 1
        invariant forall k :: 0 <= k < i ==> clients[k] == old(clients[k])
        invariant forall k :: i <= k < j ==> clients[k] == old(clients[k + 1])
        invariant forall k :: j <= k < clients.Length ==> clients[k] == old(clients[k])
      {
        clients[j] := clients[j + 1];
        j := j + 1;
      }
      ghost var front, back := old(clients[..i]), old(clients[i + 1..nclients]);
      forall k | 0 <= k < nclients - 1
        ensures clients[..nclients - 1][k] == (front + back)[k]
      {
        if k < i {
          assert (front + back)[k] == front[k];
        } else {
          assert (front + back)[k] == back[k - i];
        }
      }
      assert clients[..nclients - 1] == front + back;
    }

    /**
     * `remove_client`: drop the first occurrence of `w` and republish; a
     * window that is not registered (a dock, an unmanaged window) changes nothing.
     */
    method RemoveClient(w: Window)
      requires Valid()
      modifies this, clients
      ensures Valid() && State() == RemoveClientFrom(old(State()), w)
      ensures drag == old(drag) && running == old(running) && spawned == old(spawned)
    {
      var i := FindClient(w);
      if i == nclients {
        assert clients[..i] == Clients();
        return;
      }
      assert Clients()[..i] == clients[..i];
      RemoveClientAt(State(), w, i);
      RemoveAt(i);
    }

    /** The body of the `if` in `remove_client`: close the gap at `i`, shrink, republish. */
    method RemoveAt(i: nat)
      requires Valid() && i < nclients
      modifies this, clients
      ensures Valid()
      ensures var rest := old(Clients()[..i] + Clients()[i + 1..]);
        State() == Registry(rest, old(x).(clientList := rest))
      ensures drag == old(drag) && running == old(running) && spawned == old(spawned)
    {
      ShiftLeft(i);
      nclients := nclients - 1;
      x := x.(clientList := clients[..nclients]);
    }

    /** The Alt+Tab `memmove`: the first client moves to the end. */
    method RotateClients()
      requires Valid() && nclients > 1
      modifies clients
      ensures clients[..nclients] == RotateLeft(old(clients[..nclients]))
    {
      ghost var s := clients[..nclients];
      var first := clients[0];
      ShiftLeft(0);
      assert clients[..nclients - 1] == s[1..];
      clients[nclients - 1] := first;
      assert clients[..nclients] == s[1..] + [s[0]];
    }

    /** `send_delete`: returns whether the window advertised `WM_DELETE_WINDOW`. */
    method SendDelete(w: Window) returns (found: bool)
      requires Valid()
      modifies this
      ensures Valid()
      ensures found == SupportsDelete(old(x), w)
      ensures x == CloseWindow(old(x), w)
      ensures nclients == old(nclients) && drag == old(drag) && running == old(running) && spawned == old(spawned)
    {
      found := false;
      if w in x.protocols {
        found := AdvertisesDelete(x.protocols[w]);
      }
      if found {
        x := SendEvent(x, DeleteMessage(w));
      } else {
        x := KillClient(x, w);
      }
    }

    /**
     * `handle_map_request`: a dock is mapped as it is and not registered;
     * any other window is placed, given the client event mask and the
     * Alt-button grabs, mapped, registered and focused.
     */
    method HandleMapRequest(w: Window)
      requires Valid()
      modifies this, clients
      ensures Valid()
      ensures old(ClientListInSync()) ==> ClientListInSync()
      ensures Snap() == MapRequestStep(sw, sh, old(Snap()), w)
      ensures IsDock(old(x), w) ==> Clients() == old(Clients()) && x == MapWindow(old(x), w)
      ensures !IsDock(old(x), w) ==>
        var g := Placement(sw, sh, Attributes(old(x), w).width, Attributes(old(x), w).height);
        var r := AddClientTo(Registry(old(Clients()), Manage(old(x), w, g)), w);
        State() == Registry(r.clients, FocusWindow(r.server, w))
      ensures drag == old(drag) && running == old(running) && spawned == old(spawned)
    {
      var wa := Attributes(x, w);
      if IsDock(x, w) {
        x := MapWindow(x, w);
        return;
      }
      var g := Placement(sw, sh, wa.width, wa.height);
      x := Manage(x, w, g);
      AddClient(w);
      x := FocusWindow(x, w);
    }

    /** `handle_configure_request`: the requested position and size are applied as asked. */
    method HandleConfigureRequest(w: Window, changes: Geometry, valueMask: bv32)
      requires Valid()
      modifies this
      ensures Valid()
      ensures old(ClientListInSync()) ==> ClientListInSync()
      ensures Snap() == old(Snap()).(server := ConfigureWindow(old(x), w, changes, valueMask))
      ensures x == ConfigureWindow(old(x), w, changes, valueMask)
      ensures nclients == old(nclients) && drag == old(drag) && running == old(running) && spawned == old(spawned)
    {
      x := ConfigureWindow(x, w, changes, valueMask);
    }

    /**
     * `handle_button_press`: a press on a window focuses it; with Alt held
     * it also starts a drag, a move for button 1 and a resize for any other button.
     */
    method HandleButtonPress(ev: ButtonEvent)
      requires Valid()
      modifies this
      ensures Valid()
      ensures old(ClientListInSync()) ==> ClientListInSync()
      ensures Snap() == PressStep(old(Snap()), ev)
      ensures ev.subwindow == NoWindow ==> x == old(x) && drag == old(drag)
      ensures ev.subwindow != NoWindow ==> x == FocusWindow(old(x), ev.subwindow)
      ensures ev.subwindow != NoWindow && ev.state & Mod1Mask != 0 ==>
        drag == DragState(ev.subwindow, ev.xRoot, ev.yRoot, Attributes(old(x), ev.subwindow),
                          if ev.button == 1 then Moving else Resizing)
      ensures ev.state & Mod1Mask == 0 ==> drag == old(drag)
      ensures nclients == old(nclients) && running == old(running) && spawned == old(spawned)
    {
      if ev.subwindow == NoWindow {
        return;
      }
      x := FocusWindow(x, ev.subwindow);
      if ev.state & Mod1Mask != 0 {
        var wa := Attributes(x, ev.subwindow);
        drag := DragState(ev.subwindow, ev.xRoot, ev.yRoot, wa, if ev.button == 1 then Moving else Resizing);
      }
    }

    /** `handle_button_release`: any release ends the drag; the anchors keep their stale values. */
    method HandleButtonRelease()
      requires Valid()
      modifies this
      ensures Valid()
      ensures old(ClientListInSync()) ==> ClientListInSync()
      ensures Snap() == old(Snap()).(drag := old(drag).(win := NoWindow, mode := Idle))
      ensures drag == old(drag).(win := NoWindow, mode := Idle)
      ensures x == old(x) && nclients == old(nclients) && running == old(running) && spawned == old(spawned)
    {
      drag := drag.(win := NoWindow, mode := Idle);
    }

    /** `handle_motion`: moves or resizes the drag target relative to the anchor. */
    method HandleMotion(xRoot: int, yRoot: int)
      requires Valid()
      modifies this
      ensures Valid()
      ensures old(ClientListInSync()) ==> ClientListInSync()
      ensures Snap() == MotionStep(old(Snap()), xRoot, yRoot)
      ensures drag.win == NoWindow ==> x == old(x)
      ensures drag.mode == Moving ==>
        x == MoveWindow(old(x), drag.win, MoveTarget(drag, xRoot, yRoot).0, MoveTarget(drag, xRoot, yRoot).1)
      ensures drag.mode == Resizing ==>
        x == ResizeWindow(old(x), drag.win, ResizeTarget(drag, xRoot, yRoot).0, ResizeTarget(drag, xRoot, yRoot).1)
      ensures drag == old(drag) && nclients == old(nclients) && running == old(running) && spawned == old(spawned)
    {
      if drag.win == NoWindow {
        return;
      }
      if drag.mode == Moving {
        var p := MoveTarget(drag, xRoot, yRoot);
        x := MoveWindow(x, drag.win, p.0, p.1);
      } else if drag.mode == Resizing {
        var s := ResizeTarget(drag, xRoot, yRoot);
        x := ResizeWindow(x, drag.win, s.0, s.1);
      }
    }

    /** Alt+Tab: with two or more clients, the first moves to the end and the new first is focused. */
    method CycleClients()
      requires Valid()
      modifies this, clients
      ensures Valid()
      ensures old(ClientListInSync()) ==> ClientListInSync()
      ensures old(nclients) > 1 ==> Clients() == RotateLeft(old(Clients())) && x == FocusWindow(old(x), old(Clients())[1])
      ensures old(nclients) <= 1 ==> Clients() == old(Clients()) && x == old(x)
      ensures drag == old(drag) && running == old(running) && spawned == old(spawned)
    {
      if nclients > 1 {
        RotateClients();
        x := FocusWindow(x, clients[0]);
      }
    }

    /**
     * `handle_key_press`, Alt bindings: F4 closes the focused window unless
     * the focus is None or the root; Tab rotates the registry and focuses its
     * new first entry (without republishing `_NET_CLIENT_LIST`); Space and
     * Return start the launcher and the terminal.
     */
    method HandleKeyPress(state: bv32, sym: nat)
      requires Valid()
      modifies this, clients
      ensures Valid()
      ensures old(ClientListInSync()) ==> ClientListInSync()
      ensures Snap() == KeyStep(root, old(Snap()), state, sym)
      ensures drag == old(drag) && running == old(running)
      ensures state & Mod1Mask == 0 || sym !in {XK_F4, XK_Tab, XK_space, XK_Return} ==>
        x == old(x) && Clients() == old(Clients()) && spawned == old(spawned)
      ensures state & Mod1Mask != 0 && sym == XK_F4 ==>
        && Clients() == old(Clients()) && spawned == old(spawned)
        && x == if old(x).focus != NoWindow && old(x).focus != root then CloseWindow(old(x), old(x).focus) else old(x)
      ensures state & Mod1Mask != 0 && sym == XK_Tab ==>
        && spawned == old(spawned)
        && (old(nclients) > 1 ==> Clients() == RotateLeft(old(Clients())) && x == FocusWindow(old(x), old(Clients())[1]))
        && (old(nclients) <= 1 ==> Clients() == old(Clients()) && x == old(x))
      ensures state & Mod1Mask != 0 && sym == XK_space ==>
        x == old(x) && Clients() == old(Clients()) && spawned == old(spawned) + [LAUNCHER]
      ensures state & Mod1Mask != 0 && sym == XK_Return ==>
        x == old(x) && Clients() == old(Clients()) && spawned == old(spawned) + [TERMINAL]
    {
      if state & Mod1Mask != 0 {
        if sym == XK_F4 {
          var focused := x.focus;
          if focused != NoWindow && focused != root {
            var _ := SendDelete(focused);
          }
        } else if sym == XK_Tab {
          CycleClients();
        } else if sym == XK_space {
          spawned := spawned + [LAUNCHER];
        } else if sym == XK_Return {
          spawned := spawned + [TERMINAL];
        }
      }
    }

    /** The body of the `if` in `scan_existing`: client event mask, Alt-button grabs, registration. */
    method Adopt(w: Window)
      requires Valid() && CanAdopt(x, w)
      modifies this, clients
      ensures Valid() && State() == AdoptStep(old(State()), w)
      ensures drag == old(drag) && running == old(running) && spawned == old(spawned)
    {
      x := SelectInputAndGrab(x, w);
      AddClient(w);
    }

    /**
     * `scan_existing`: every viewable, non-override-redirect top-level window
     * gets the client event mask and the Alt-button grabs and is registered,
     * in stacking order, without being moved or focused.
     */
    method ScanExisting()
      requires Valid()
      modifies this, clients
      ensures Valid() && State() == Scan(old(State()), old(x.stacking))
      ensures drag == old(drag) && running == old(running) && spawned == old(spawned)
    {
      ghost var r0 := State();
      var wins := x.stacking;
      var i := 0;
      while i < |wins|
        invariant Valid() && 0 <= i <= |wins|
        invariant State() == Scan(r0, wins[..i])
        invariant drag == old(drag) && running == old(running) && spawned == old(spawned)
      {
        var w := wins[i];
        ScanPrefix(r0, wins, i);
        if w in x.geometry && w in x.mapped && w !in x.overrideRedirect {
          Adopt(w);
        }
        i := i + 1;
      }
      assert wins[..i] == wins;
    }

    /** The body of the `switch` in the event loop. */
    method HandleEvent(ev: Event)
      requires Valid()
      modifies this, clients
      ensures Valid()
      ensures old(ClientListInSync()) ==> ClientListInSync()
      ensures Snap() == Step(root, sw, sh, old(Snap()), ev)
      ensures running == old(running)
    {
      ghost var s0 := Snap();
      match ev
      case MapRequest(w) =>
        HandleMapRequest(w);
        assert Step(root, sw, sh, s0, ev) == MapRequestStep(sw, sh, s0, w);
      case ConfigureRequest(w, changes, mask) =>
        HandleConfigureRequest(w, changes, mask);
      case UnmapNotify(w) =>
        RemoveClientForgets(State(), w);
        RemoveClient(w);
        assert Step(root, sw, sh, s0, ev) == Unregister(s0, w);
      case DestroyNotify(w) =>
        RemoveClientForgets(State(), w);
        RemoveClient(w);
        assert Step(root, sw, sh, s0, ev) == Unregister(s0, w);
      case ButtonPress(b) =>
        HandleButtonPress(b);
        assert Step(root, sw, sh, s0, ev) == PressStep(s0, b);
      case ButtonRelease(_) =>
        HandleButtonRelease();
      case MotionNotify(xr, yr) =>
        HandleMotion(xr, yr);
        assert Step(root, sw, sh, s0, ev) == MotionStep(s0, xr, yr);
      case KeyPress(state, sym) =>
        HandleKeyPress(state, sym);
        assert Step(root, sw, sh, s0, ev) == KeyStep(root, s0, state, sym);
      case OtherEvent =>
    }

    /** `sigterm_handler`. */
    method Terminate()
      requires Valid()
      modifies this
      ensures Valid() && !running
      ensures x == old(x) && nclients == old(nclients) && drag == old(drag) && spawned == old(spawned)
    {
      running := false;
    }

    /** `while (running)`: the events are handled one at a time, in order. */
    method Run(events: seq<Event>) returns (handled: nat)
      requires Valid()
      modifies this, clients
      ensures Valid()
      ensures old(ClientListInSync()) ==> ClientListInSync()
      ensures handled == if old(running) then |events| else 0
      ensures Snap() == if old(running) then Steps(root, sw, sh, old(Snap()), events) else old(Snap())
    {
      ghost var synced := ClientListInSync();
      ghost var s0 := Snap();
      handled := 0;
      while running && handled < |events|
        invariant Valid() && handled <= |events|
        invariant running == old(running)
        invariant !running ==> handled == 0
        invariant synced ==> ClientListInSync()
        invariant Snap() == Steps(root, sw, sh, s0, events[..handled])
      {
        StepsPrefix(root, sw, sh, s0, events, handled);
        HandleEvent(events[handled]);
        handled := handled + 1;
      }
      if running {
        assert events[..handled] == events;
      }
    }
  }
}
