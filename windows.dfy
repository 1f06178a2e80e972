/** `close_windows_gracefully` in `shutdown-effect.py`: asks the Wayfire
    compositor to close every ordinary application window, skipping
    layer-shell surfaces, the known overlays, untitled views and the
    shutdown effect's own windows. The main flow does not call it; the
    operation is kept as a capability. */
module Windows {
  import opened Platform
  import opened PyText
  import Signals

  /** A view as `list_views` reports it. A missing `type`, `app-id` or
      `title` key reads as ""; a missing `id` is None. */
  datatype View = View(id: Option<int>, viewType: string, appId: string, title: string)

  /** What the compositor connection gives: the `wayfire` module cannot be
      imported; the socket or `list_views` raises; or the views together
      with the ids whose `close_view` raises. */
  datatype Compositor =
    | Unavailable
    | Broken
    | Connected(views: seq<View>, closeFails: set<int>)

  const LayerShellTypes: set<string> := {"background", "panel", "overlay"}

  const OverlayAppIds: set<string> :=
    {"gtk-layer-shell", "shutdown-overlay", "mpvpaper", "fade-animation", "fire-black-overlay", "sakura-animation"}

  /** The skip rules: a view is closed only if none of them applies. */
  predicate ShouldClose(v: View)
  {
    && v.viewType !in LayerShellTypes
    && v.appId !in OverlayAppIds
    && v.title != "" && v.title != "nil"
    && !Contains(v.title, "shutdown-effect") && !Contains(v.title, "animate.py")
  }

  /** The view passes the skip rules and its `close_view` call goes through. */
  predicate IsClosed(v: View, closeFails: set<int>)
  {
    ShouldClose(v) && v.id.Some? && v.id.value !in closeFails
  }

  /** The ids closed, in the order the loop visits the views. */
  function Closed(views: seq<View>, closeFails: set<int>): (ids: seq<int>)
    ensures |ids| <= |views|
    ensures forall id :: id in ids ==> id !in closeFails && exists v :: v in views && ShouldClose(v) && v.id == Some(id)
    ensures forall v :: v in views && IsClosed(v, closeFails) ==> v.id.value in ids
  {
    if views == [] then []
    else
      var init, last := views[..|views| - 1], views[|views| - 1];
      assert forall v :: v in views ==> v in init || v == last;
      Closed(init, closeFails) + (if IsClosed(last, closeFails) then [last.id.value] else [])
  }

  /** The positions of `views` holding a view that gets closed. */
  function ClosedPositions(views: seq<View>, closeFails: set<int>): set<int>
  {
    set i | 0 <= i < |views| && IsClosed(views[i], closeFails)
  }

  lemma ClosedPositionsSnoc(views: seq<View>, closeFails: set<int>)
    requires views != []
    ensures var n := |views| - 1;
      ClosedPositions(views, closeFails)
      == ClosedPositions(views[..n], closeFails) + (if IsClosed(views[n], closeFails) then {n} else {})
  {
    var n := |views| - 1;
    var init := views[..n];
    var extra: set<int> := if IsClosed(views[n], closeFails) then {n} else {};
    forall i: int
      ensures i in ClosedPositions(views, closeFails) <==> i in ClosedPositions(init, closeFails) + extra
    {
      if 0 <= i < n {
        assert init[i] == views[i];
      }
    }
  }

  /** A view is closed once for each index at which it passes: the number
      of closed ids is the number of positions holding a closable view. */
  lemma {:induction false} ClosedCount(views: seq<View>, closeFails: set<int>)
    ensures |Closed(views, closeFails)| == |ClosedPositions(views, closeFails)|
  {
    if views != [] {
      var n := |views| - 1;
      var init := views[..n];
      ClosedCount(init, closeFails);
      ClosedPositionsSnoc(views, closeFails);
      assert n !in ClosedPositions(init, closeFails);
    }
  }

  /** The shutdown effect's own windows and the surfaces it must not touch
      are never closed, wherever the marker appears in the title. */
  lemma SkippedViews(v: View, a: string, b: string)
    ensures v.title == a + "shutdown-effect" + b ==> !ShouldClose(v)
    ensures v.title == a + "animate.py" + b ==> !ShouldClose(v)
    ensures v.viewType in LayerShellTypes || v.appId in OverlayAppIds || v.title == "" || v.title == "nil" ==> !ShouldClose(v)
  {
    ContainsInfix(a, "shutdown-effect", b);
    ContainsInfix(a, "animate.py", b);
  }

  /** `close_windows_gracefully(done_event)`: returns whether the compositor
      could be reached and listed, and how many windows it closed; the
      event is set on every path. */
  method CloseWindowsGracefully(done: Signals.Event, compositor: Compositor)
    returns (success: bool, closedCount: nat)
    modifies done
    ensures done.flag
    ensures success <==> compositor.Connected?
    ensures closedCount == if compositor.Connected? then |Closed(compositor.views, compositor.closeFails)| else 0
  {
    closedCount := 0;
    match compositor {
      case Unavailable =>
        done.Set();
        return false, 0;
      case Broken =>
        success := false;
      case Connected(views, closeFails) =>
        for i := 0 to |views|
          invariant closedCount == |Closed(views[..i], closeFails)|
        {
          var view := views[i];
          assert views[..i + 1][..i] == views[..i];
          if ShouldClose(view) && view.id.Some? && view.id.value !in closeFails {
            closedCount := closedCount + 1;
          }
        }
        assert views[..|views|] == views;
        success := true;
    }
    done.Set();
  }
}
