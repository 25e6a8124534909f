/**
 * The top bar: a window as wide as the primary monitor and 32 pixels high
 * at the monitor's origin, which reserves that strip at the top of the
 * screen through `_NET_WM_STRUT_PARTIAL`.
 */
module Topbar {
  import opened X11
  import WindowManager

  const BAR_HEIGHT: int := 32

  /** The twelve strut values the bar publishes for a monitor `width` pixels wide. */
  function TopStrutValues(width: int): (s: seq<int>)
    ensures |s| == 12
    ensures DecodeStrutPartial(s) == StrutPartial(0, 0, BAR_HEIGHT, 0, 0, 0, 0, 0, 0, width, 0, 0)
  {
    [0, 0, BAR_HEIGHT, 0, 0, 0, 0, 0, 0, width, 0, 0]
  }

  /**
   * `on_realize`: a zero-filled array of twelve, then the top reservation
   * and its horizontal extent, all of it published.
   */
  method TopStruts(monitor: Geometry) returns (struts: seq<int>)
    ensures struts == TopStrutValues(monitor.width)
    ensures DecodeStrutPartial(struts).top == WindowManager.TOPBAR_H
  {
    var a := new int[12](_ => 0);
    a[2] := BAR_HEIGHT;
    a[8] := 0;
    a[9] := monitor.width;
    struts := a[..];
  }

  /**
   * Where `main` puts the bar, in root-window coordinates: at the primary
   * monitor's origin, as tall as the top reservation and as wide as the
   * reservation's end column minus its start column.
   */
  function BarGeometry(monitor: Geometry): (g: Geometry)
    ensures g.x == monitor.x && g.y == monitor.y
    ensures var r := DecodeStrutPartial(TopStrutValues(monitor.width));
      g.width == r.topEndX - r.topStartX && g.height == r.top
  {
    Geometry(monitor.x, monitor.y, monitor.width, BAR_HEIGHT)
  }

  /**
   * The strut is in root-window coordinates and claims columns 0 to
   * `width` inclusive, whatever the monitor's position. So the bar lies
   * inside the strip it reserves exactly when the primary monitor's top
   * edge is the screen's and its left edge is at column 0 or 1. With the
   * monitor at the origin the strip is one column wider than the bar.
   */
  lemma BarInsideReservation(monitor: Geometry)
    ensures var g := BarGeometry(monitor);
      var r := DecodeStrutPartial(TopStrutValues(monitor.width));
      monitor.width > 0 ==>
        ((forall px, py :: Covers(g, px, py) ==> InTopStrut(r, px, py))
         <==> monitor.y == 0 && 0 <= monitor.x <= 1)
    ensures var g := BarGeometry(monitor);
      var r := DecodeStrutPartial(TopStrutValues(monitor.width));
      monitor.width >= 0 && monitor.x == 0 && monitor.y == 0 ==> InTopStrut(r, monitor.width, 0) && !Covers(g, monitor.width, 0)
  {
    var g := BarGeometry(monitor);
    var r := DecodeStrutPartial(TopStrutValues(monitor.width));
    if monitor.width > 0 && forall px, py :: Covers(g, px, py) ==> InTopStrut(r, px, py) {
      assert Covers(g, g.x, g.y);
      assert Covers(g, g.x + g.width - 1, g.y + g.height - 1);
    }
    if monitor.y == 0 && 0 <= monitor.x <= 1 {
      forall px, py | Covers(g, px, py)
        ensures InTopStrut(r, px, py)
      {
      }
    }
  }
}
