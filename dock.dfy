/**
 * The dock: a fixed table of applications ended by an empty sentinel, one
 * button per application, a bar centred at the bottom of the primary
 * monitor, and the strip it reserves there through
 * `_NET_WM_STRUT_PARTIAL`.
 */
module Dock {
  import opened Wrappers
  import opened CInt
  import opened X11
  import WindowManager
  import Topbar

  const DOCK_HEIGHT: int := 64
  const ICON_SIZE: int := 48
  const ICON_PADDING: int := 8
  const DOCK_MARGIN: int := 8

  /** A `DockApp` record; the sentinel has no name, command or icon. */
  datatype DockApp = DockApp(name: Option<string>, exec: Option<string>, icon: Option<string>)

  function App(name: string, exec: string, icon: string): DockApp
  {
    DockApp(Some(name), Some(exec), Some(icon))
  }

  const Sentinel: DockApp := DockApp(None, None, None)

  /** `dock_apps`. */
  const DockApps: seq<DockApp> := [
    App("Files", "blazeneuro-files", "system-file-manager"),
    App("Terminal", "blazeneuro-terminal", "utilities-terminal"),
    App("Chromium", "chromium-browser", "chromium-browser"),
    App("VS Code", "code", "com.visualstudio.code"),
    App("Settings", "blazeneuro-settings", "preferences-system"),
    App("Software", "gnome-software", "org.gnome.Software"),
    App("Text Editor", "mousepad", "accessories-text-editor"),
    App("Calculator", "blazeneuro-calculator", "accessories-calculator"),
    App("Notes", "blazeneuro-notes", "accessories-text-editor"),
    App("Task Viewer", "blazeneuro-taskviewer", "utilities-system-monitor"),
    Sentinel
  ]

  /** The table ends: some entry has no name. */
  predicate Terminated(table: seq<DockApp>)
  {
    exists k :: 0 <= k < |table| && table[k].name.None?
  }

  /** The number of entries before the first one without a name. */
  function Length(table: seq<DockApp>): (n: nat)
    requires Terminated(table)
    ensures n < |table| && table[n].name.None?
    ensures forall k :: 0 <= k < n ==> table[k].name.Some?
  {
    if table[0].name.None? then 0
    else
      assert Terminated(table[1..]) by {
        var k :| 0 <= k < |table| && table[k].name.None?;
        assert table[1..][k - 1] == table[k];
      }
      1 + Length(table[1..])
  }

  /** The count stops at the first entry without a name. */
  lemma {:induction false} LengthAt(table: seq<DockApp>, n: nat)
    requires n < |table| && table[n].name.None?
    requires forall k :: 0 <= k < n ==> table[k].name.Some?
    ensures Terminated(table) && Length(table) == n
  {
    if n > 0 {
      assert table[1..][n - 1] == table[n];
      LengthAt(table[1..], n - 1);
    }
  }

  /** `num_apps`: count the entries until the sentinel. */
  method CountApps(table: seq<DockApp>) returns (n: nat)
    requires Terminated(table)
    ensures n == Length(table)
  {
    n := 0;
    while table[n].name.Some?
      invariant n <= Length(table)
      invariant forall k :: 0 <= k < n ==> table[k].name.Some?
      decreases Length(table) - n
    {
      n := n + 1;
    }
  }

  /** The table holds ten applications, each with a command. */
  lemma {:induction false} TenApps()
    ensures Terminated(DockApps) && Length(DockApps) == 10
    ensures forall k :: 0 <= k < 10 ==> DockApps[k].exec.Some?
  {
    assert DockApps[10].name.None?;
    LengthAt(DockApps, 10);
  }

  /** `dock_w`: one icon cell per application plus the box border. */
  function DockWidth(numApps: int): (w: int)
    ensures numApps >= 0 ==> w >= 16
  {
    numApps * (ICON_SIZE + ICON_PADDING * 2) + 16
  }

  /** An empty dock is just its border, and each application widens it by one icon cell. */
  lemma DockWidthPerApp(numApps: nat)
    ensures DockWidth(0) == 16
    ensures DockWidth(numApps + 1) == DockWidth(numApps) + ICON_SIZE + 2 * ICON_PADDING
  {
  }

  /**
   * The dock's rectangle on `monitor`: centred horizontally (C division,
   * so an odd slack leaves the extra pixel on the right), and resting
   * `DOCK_MARGIN` pixels above the monitor's bottom edge.
   */
  function DockGeometry(monitor: Geometry, numApps: int): (g: Geometry)
    ensures g.width == DockWidth(numApps) && g.height == DOCK_HEIGHT
    ensures var left := g.x - monitor.x;
      var right := (monitor.x + monitor.width) - (g.x + g.width);
      monitor.width >= g.width ==> 0 <= left <= right <= left + 1
    ensures g.y + g.height == monitor.y + monitor.height - DOCK_MARGIN
  {
    var w := DockWidth(numApps);
    Geometry(monitor.x + Quot(monitor.width - w, 2), monitor.y + monitor.height - DOCK_HEIGHT - DOCK_MARGIN, w, DOCK_HEIGHT)
  }

  /** With the ten applications of the table, the dock is 656 pixels wide. */
  lemma DockIs656Wide(monitor: Geometry)
    ensures Terminated(DockApps) && DockGeometry(monitor, Length(DockApps)).width == 656
  {
    TenApps();
  }

  /** The twelve strut values the dock publishes for a monitor `width` pixels wide. */
  function DockStrutValues(width: int): (s: seq<int>)
    ensures |s| == 12
    ensures DecodeStrutPartial(s) ==
      StrutPartial(0, 0, 0, DOCK_HEIGHT + DOCK_MARGIN, 0, 0, 0, 0, 0, 0, 0, width)
  {
    [0, 0, 0, DOCK_HEIGHT + DOCK_MARGIN, 0, 0, 0, 0, 0, 0, 0, width]
  }

  /**
   * `on_realize`: nothing is published without a primary monitor; otherwise
   * a zero-filled array of twelve gets the bottom reservation and its
   * horizontal extent.
   */
  method DockStruts(monitor: Option<Geometry>) returns (struts: Option<seq<int>>)
    ensures monitor.None? <==> struts.None?
    ensures monitor.Some? ==> struts.value == DockStrutValues(monitor.value.width)
    ensures monitor.Some? ==> DecodeStrutPartial(struts.value).bottom == WindowManager.DOCK_H
  {
    if monitor.None? {
      return None;
    }
    var a := new int[12](_ => 0);
    a[3] := DOCK_HEIGHT + DOCK_MARGIN;
    a[10] := 0;
    a[11] := monitor.value.width;
    return Some(a[..]);
  }

  /**
   * The strut is in root-window coordinates: the bottom 72 rows of the
   * screen, columns 0 to the monitor's width inclusive. When the primary
   * monitor starts at column 0, shares the screen's bottom edge and is at
   * least as wide as the dock, the dock lies inside that strip.
   */
  lemma DockWithinReservation(monitor: Geometry, screenHeight: int)
    requires Terminated(DockApps)
    requires monitor.x == 0 && monitor.y + monitor.height == screenHeight
    requires monitor.width >= DockGeometry(monitor, Length(DockApps)).width
    ensures var g := DockGeometry(monitor, Length(DockApps));
      var r := DecodeStrutPartial(DockStrutValues(monitor.width));
      forall px, py :: Covers(g, px, py) ==> InBottomStrut(r, screenHeight, px, py)
  {
  }

  /**
   * On a screen that is the primary monitor, a window placed by the window
   * manager stays clear of the strips the top bar and the dock reserve.
   */
  lemma PlacementClearsPanels(sw: int, sh: int, reqW: int, reqH: int)
    ensures var g := WindowManager.Placement(sw, sh, reqW, reqH);
      var top := DecodeStrutPartial(Topbar.TopStrutValues(sw)).top;
      var bottom := DecodeStrutPartial(DockStrutValues(sw)).bottom;
      top <= g.y && g.y + g.height <= sh - bottom
  {
  }

  /** `g_shell_parse_argv` on a command without quotes or escapes: the words between spaces. */
  function Words(s: string): (r: seq<string>)
    ensures forall k :: 0 <= k < |r| ==> |r[k]| > 0 && ' ' !in r[k]
    decreases |s|
  {
    if s == [] then []
    else if s[0] == ' ' then Words(s[1..])
    else
      var k := WordEnd(s);
      [s[..k]] + Words(s[k..])
  }

  /** The length of the word at the start of `s`. */
  function WordEnd(s: string): (k: nat)
    ensures k <= |s|
    ensures ' ' !in s[..k]
    ensures k < |s| ==> s[k] == ' '
    ensures |s| > 0 && s[0] != ' ' ==> k > 0
  {
    if s == [] || s[0] == ' ' then 0
    else
      var k := 1 + WordEnd(s[1..]);
      assert s[..k] == [s[0]] + s[1..][..k - 1];
      k
  }

  /** A word with no space is its own argument vector. */
  lemma WordsOfWord(w: string)
    requires |w| > 0 && ' ' !in w
    ensures Words(w) == [w]
  {
    WordEndOfWord(w);
    assert w[..|w|] == w;
    assert w[|w|..] == [];
    assert Words(w) == [w[..|w|]] + Words(w[|w|..]);
  }

  lemma {:induction false} WordEndOfWord(w: string)
    requires ' ' !in w
    ensures WordEnd(w) == |w|
  {
    if w != [] {
      WordEndOfWord(w[1..]);
    }
  }

  /** The command line `launch_app` builds: the command, a space and an ampersand. */
  function LaunchCommand(exec: string): string
  {
    exec + " &"
  }

  /**
   * The arguments `g_spawn_command_line_async` runs the command line with:
   * it runs no shell, so the ampersand is passed to the program.
   */
  function LaunchArgv(exec: string): seq<string>
  {
    Words(LaunchCommand(exec))
  }

  /** Launching a dock command passes "&" to the program as its first argument. */
  lemma {:induction false} LaunchPassesAmpersand(exec: string)
    requires |exec| > 0 && ' ' !in exec
    ensures LaunchArgv(exec) == [exec, "&"]
  {
    var c := LaunchCommand(exec);
    WordEndOfWord(exec);
    assert c[..|exec|] == exec;
    assert WordEnd(c) == |exec| by {
      WordEndPrefix(exec, " &");
    }
    assert c[|exec|..] == " &";
    assert " &"[1..] == "&";
    WordsOfWord("&");
    assert Words(" &") == Words("&");
    assert c[0] == exec[0] != ' ';
    assert Words(c) == [c[..|exec|]] + Words(c[|exec|..]);
  }

  /** The first word of `w + rest` ends where `w` does, when `w` has no space and `rest` starts with one. */
  lemma {:induction false} WordEndPrefix(w: string, rest: string)
    requires ' ' !in w && |rest| > 0 && rest[0] == ' '
    ensures WordEnd(w + rest) == |w|
  {
    if w != [] {
      assert (w + rest)[1..] == w[1..] + rest;
      WordEndPrefix(w[1..], rest);
    } else {
      assert w + rest == rest;
    }
  }

  /** The arguments intended: the program alone, already started in the background by the asynchronous spawn. */
  function IntendedArgv(exec: string): (argv: seq<string>)
    requires |exec| > 0 && ' ' !in exec
    ensures argv == [exec]
  {
    WordsOfWord(exec);
    Words(exec)
  }

  /** Every command in the table is a single word, so clicking a button runs that program with no arguments. */
  lemma DockCommandIsWord(k: nat)
    requires k < 10
    ensures DockApps[k].exec.Some? && |DockApps[k].exec.value| > 0 && ' ' !in DockApps[k].exec.value
  {
  }

  /**
   * What the button of row `i` is evidently meant to start: the program of
   * that row alone. `LaunchPassesAmpersand` shows that `launch_app` as
   * written passes a literal "&" as well.
   */
  function ButtonArgv(i: nat): (argv: seq<string>)
    requires i < 10
    ensures argv == [DockApps[i].exec.value]
  {
    DockCommandIsWord(i);
    IntendedArgv(DockApps[i].exec.value)
  }
}
