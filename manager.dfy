/**
 * The popup daemon's toggle dispatcher (manager.py): a table from popup name
 * to the one window registered for it, updated when a command line arrives
 * and when a window is destroyed.
 *
 * A window is a record in `windows`, found by its index (its identity); the
 * table maps a popup name to such an index. Closing a window (hiding it) and
 * its destruction (the GTK `destroy` signal) are separate events; the table is
 * only edited on creation and by the destroy handler.
 */
module Manager {

  /** The keys of `popup_map`: the popups the daemon can open. */
  const PopupNames: set<string> :=
    {"brightness", "volume", "battery", "systeminfo", "bluetooth", "network", "showcase"}

  /** A popup window: the name it was created for (the `popup_name` its destroy
      handler captured), whether it is shown, and whether it is not yet destroyed. */
  datatype Window = Window(tag: string, visible: bool, alive: bool)

  /** What one command line did. */
  datatype Action =
    | NoArgument                      // fewer than two arguments: daemon start-up
    | ToggledClosed(closedId: nat)    // the popup was open and visible: it was closed
    | Created(newId: nat)             // a new window was created and registered
    | CreationFailed                  // the window constructor raised; the error was logged
    | UnknownPopup                    // the name is not in `popup_map`; an error was printed

  /** The `open_windows` table and every window the daemon ever created. */
  datatype Registry = Registry(openWindows: map<string, nat>, windows: seq<Window>)

  /** The answer to one command line: the new registry, what happened, the exit code. */
  datatype Outcome = Outcome(registry: Registry, action: Action, exitCode: int)

  /** The table only names the seven known popups, each entry leads to a live
      window created for that name, and a window that is shown is alive. */
  ghost predicate Valid(r: Registry) {
    && (forall name :: name in r.openWindows ==>
          && name in PopupNames
          && r.openWindows[name] < |r.windows|
          && r.windows[r.openWindows[name]].tag == name
          && r.windows[r.openWindows[name]].alive)
    && (forall i :: 0 <= i < |r.windows| ==> r.windows[i].tag in PopupNames)
    && (forall i :: 0 <= i < |r.windows| && r.windows[i].visible ==> r.windows[i].alive)
  }

  /** True when `name` has a table entry whose window reports itself visible
      (the toggle-close test of `do_command_line`). */
  predicate OpenAndVisible(r: Registry, name: string) {
    name in r.openWindows && r.openWindows[name] < |r.windows| && r.windows[r.openWindows[name]].visible
  }

  /** `do_command_line` on the argument list `args` (program name first).
      `creationFails` stands for the window constructor raising, which the
      catch-all handler logs. */
  function Dispatched(r: Registry, args: seq<string>, creationFails: bool): Outcome {
    if |args| < 2 then Outcome(r, NoArgument, 0)
    else
      var name := args[1];
      if OpenAndVisible(r, name) then
        var id := r.openWindows[name];
        Outcome(r.(windows := r.windows[id := r.windows[id].(visible := false)]), ToggledClosed(id), 0)
      else if name in PopupNames then
        if creationFails then Outcome(r, CreationFailed, 0)
        else
          var id := |r.windows|;
          Outcome(Registry(r.openWindows[name := id], r.windows + [Window(name, true, true)]), Created(id), 0)
      else Outcome(r, UnknownPopup, 0)
  }

  /** The window `id` is closed by any means other than its destruction (user
      action, focus loss): it is no longer shown. */
  function Closed(r: Registry, id: nat): Registry
    requires id < |r.windows|
  {
    r.(windows := r.windows[id := r.windows[id].(visible := false)])
  }

  /** The `destroy` signal of window `id` and its handler `on_window_closed`:
      the window dies and the entry for the name it was created for is deleted
      if present, whichever window that entry leads to. */
  function Destroyed(r: Registry, id: nat): Registry
    requires id < |r.windows| && r.windows[id].alive
  {
    var name := r.windows[id].tag;
    Registry(r.openWindows - {name}, r.windows[id := Window(name, false, false)])
  }

  // ---------------------------------------------------------------------------
  // The daemon object
  // ---------------------------------------------------------------------------

  /** The daemon application together with the module-level `open_windows` table. */
  class PopupManager {
    var openWindows: map<string, nat>
    var windows: seq<Window>

    function State(): Registry
      reads this
    {
      Registry(openWindows, windows)
    }

    constructor ()
      ensures State() == Registry(map[], [])
      ensures Valid(State())
    {
      openWindows := map[];
      windows := [];
    }

    /** Handles one command line and returns the process exit code. */
    method DoCommandLine(args: seq<string>, creationFails: bool) returns (exitCode: int, action: Action)
      requires Valid(State())
      modifies this
      ensures Outcome(State(), action, exitCode) == Dispatched(old(State()), args, creationFails)
      ensures Valid(State())
    {
      DispatchKeepsValid(State(), args, creationFails);
      if |args| < 2 {
        return 0, NoArgument;
      }
      var name := args[1];
      if name in openWindows && windows[openWindows[name]].visible {
        var id := openWindows[name];
        windows := windows[id := windows[id].(visible := false)];
        return 0, ToggledClosed(id);
      }
      if name in PopupNames {
        if creationFails {
          exitCode, action := 0, CreationFailed;
        } else {
          var id := |windows|;
          windows := windows + [Window(name, true, true)];
          openWindows := openWindows[name := id];
          exitCode, action := 0, Created(id);
        }
      } else {
        exitCode, action := 0, UnknownPopup;
      }
    }

    /** The window `id` is closed without being destroyed yet. */
    method CloseWindow(id: nat)
      requires Valid(State()) && id < |windows|
      modifies this
      ensures State() == Closed(old(State()), id)
      ensures Valid(State())
    {
      windows := windows[id := windows[id].(visible := false)];
    }

    /** The destroy handler of window `id`. */
    method OnWindowDestroyed(id: nat)
      requires Valid(State()) && id < |windows| && windows[id].alive
      modifies this
      ensures State() == Destroyed(old(State()), id)
      ensures Valid(State())
    {
      DestroyKeepsValid(State(), id);
      var name := windows[id].tag;
      windows := windows[id := Window(name, false, false)];
      if name in openWindows {
        openWindows := openWindows - {name};
      }
    }
  }

  // ---------------------------------------------------------------------------
  // Properties of the dispatcher
  // ---------------------------------------------------------------------------

  /** Every command line exits with status 0, whatever happened. */
  lemma ExitCodeAlwaysZero(r: Registry, args: seq<string>, creationFails: bool)
    ensures Dispatched(r, args, creationFails).exitCode == 0
  {
  }

  /** Dispatching keeps the registry well formed; in particular only the seven
      known names are ever inserted into the table. */
  lemma DispatchKeepsValid(r: Registry, args: seq<string>, creationFails: bool)
    requires Valid(r)
    ensures Valid(Dispatched(r, args, creationFails).registry)
  {
    var o := Dispatched(r, args, creationFails);
    if o.action.Created? {
      var name := args[1];
      var id := |r.windows|;
      var r' := o.registry;
      forall n | n in r'.openWindows
        ensures n in PopupNames && r'.openWindows[n] < |r'.windows|
        ensures r'.windows[r'.openWindows[n]].tag == n && r'.windows[r'.openWindows[n]].alive
      {
        if n != name {
          assert r'.openWindows[n] == r.openWindows[n];
          assert r'.windows[r.openWindows[n]] == r.windows[r.openWindows[n]];
        }
      }
    }
  }

  /** Closing keeps the registry well formed. */
  lemma CloseKeepsValid(r: Registry, id: nat)
    requires Valid(r) && id < |r.windows|
    ensures Valid(Closed(r, id))
  {
  }

  /** The destroy handler keeps the registry well formed. */
  lemma DestroyKeepsValid(r: Registry, id: nat)
    requires Valid(r) && id < |r.windows| && r.windows[id].alive
    ensures Valid(Destroyed(r, id))
  {
    var r' := Destroyed(r, id);
    forall n | n in r'.openWindows
      ensures r'.openWindows[n] != id
    {
      assert r.windows[r.openWindows[n]].tag == n;
    }
  }

  /** Without a popup name nothing is created and the table is left alone. */
  lemma NoArgumentIsNoOp(r: Registry, args: seq<string>, creationFails: bool)
    requires |args| < 2
    ensures Dispatched(r, args, creationFails).registry == r
    ensures Dispatched(r, args, creationFails).action == NoArgument
  {
  }

  /** A request for a popup whose window is registered and visible closes that
      window, creates none, and does not edit the table. */
  lemma ToggleCloses(r: Registry, args: seq<string>, creationFails: bool)
    requires Valid(r) && |args| >= 2 && OpenAndVisible(r, args[1])
    ensures var o := Dispatched(r, args, creationFails);
      && o.action == ToggledClosed(r.openWindows[args[1]])
      && o.registry.openWindows == r.openWindows
      && |o.registry.windows| == |r.windows|
      && !o.registry.windows[r.openWindows[args[1]]].visible
      && o.registry.windows[r.openWindows[args[1]]].alive
  {
  }

  /** An unknown popup name leaves the registry unchanged. In a valid
      registry an unknown name is never in the table, so no window of that
      name can be toggled closed. */
  lemma UnknownNameUnchanged(r: Registry, args: seq<string>, creationFails: bool)
    requires |args| >= 2 && args[1] !in PopupNames
    requires Valid(r) || !OpenAndVisible(r, args[1])
    ensures Dispatched(r, args, creationFails).registry == r
    ensures Dispatched(r, args, creationFails).action == UnknownPopup
  {
    if Valid(r) {
      assert args[1] !in r.openWindows;
    }
  }

  /** A request for a known popup that is not open and visible creates a fresh,
      visible window and makes the table map the name to it, overwriting a
      present-but-hidden entry; every other entry stays. */
  lemma CreateRegisters(r: Registry, args: seq<string>)
    requires Valid(r) && |args| >= 2 && args[1] in PopupNames && !OpenAndVisible(r, args[1])
    ensures var o := Dispatched(r, args, false);
      && o.action == Created(|r.windows|)
      && o.registry.openWindows == r.openWindows[args[1] := |r.windows|]
      && o.registry.windows == r.windows + [Window(args[1], true, true)]
  {
  }

  /** The destroy handler deletes by name: the table loses the entry for the
      destroyed window's name, and nothing else. */
  lemma DestroyDeletesByName(r: Registry, id: nat)
    requires id < |r.windows| && r.windows[id].alive
    ensures Destroyed(r, id).openWindows == r.openWindows - {r.windows[id].tag}
    ensures r.windows[id].tag !in r.openWindows ==> Destroyed(r, id).openWindows == r.openWindows
  {
  }

  /** Open, toggle, destroy, open again: the first request creates window 0, the
      second closes it, its destruction empties the table, the third creates
      window 1. */
  lemma ToggleRoundTrip()
    ensures var r0 := Registry(map[], []);
      var o1 := Dispatched(r0, ["manager.py", "volume"], false);
      var o2 := Dispatched(o1.registry, ["manager.py", "volume"], false);
      var r3 := Destroyed(o2.registry, 0);
      var o4 := Dispatched(r3, ["manager.py", "volume"], false);
      && o1.action == Created(0)
      && o2.action == ToggledClosed(0)
      && r3.openWindows == map[]
      && o4.action == Created(1)
      && o4.registry.openWindows == map["volume" := 1]
  {
    var r0 := Registry(map[], []);
    var o1 := Dispatched(r0, ["manager.py", "volume"], false);
    assert OpenAndVisible(o1.registry, "volume");
    var o2 := Dispatched(o1.registry, ["manager.py", "volume"], false);
    var r3 := Destroyed(o2.registry, 0);
    assert !OpenAndVisible(r3, "volume");
  }

  /** A stale window's destruction removes a newer entry: window 0 is closed but
      not yet destroyed when a second request creates window 1; destroying
      window 0 then deletes the entry for window 1, which is still shown, so a
      further request opens a second visible window for the same popup. */
  lemma StaleDestroyRemovesNewerEntry()
    ensures var r0 := Registry(map[], []);
      var r1 := Dispatched(r0, ["manager.py", "volume"], false).registry;
      var r2 := Closed(r1, 0);
      var o3 := Dispatched(r2, ["manager.py", "volume"], false);
      var r4 := Destroyed(o3.registry, 0);
      var o5 := Dispatched(r4, ["manager.py", "volume"], false);
      && o3.action == Created(1)
      && "volume" !in r4.openWindows
      && r4.windows[1].visible
      && o5.action == Created(2)
      && o5.registry.windows[1].visible && o5.registry.windows[2].visible
  {
    var r0 := Registry(map[], []);
    var r1 := Dispatched(r0, ["manager.py", "volume"], false).registry;
    var r2 := Closed(r1, 0);
    assert !OpenAndVisible(r2, "volume");
    var o3 := Dispatched(r2, ["manager.py", "volume"], false);
    var r4 := Destroyed(o3.registry, 0);
    assert !OpenAndVisible(r4, "volume");
  }
}
