// The popup window's close-on-focus-loss timers and the application id and
// window keyword arguments a quick application derives from its window tag.

module BaseWindow {
  import opened Wrappers

  // ---------------------------------------------------------------------------
  // AppWindow
  // ---------------------------------------------------------------------------

  /** The ids an optional timer field accounts for. */
  function Pending(t: Option<nat>): (ids: set<nat>)
    ensures t.None? <==> ids == {}
    ensures t.Some? ==> ids == {t.value}
  {
    if t.Some? then {t.value} else {}
  }

  /** A popup window's focus handling. When `closeOnFocusLoss` is set, a focus
      controller is attached and a 200 ms grace timer is scheduled; only once
      it has fired may losing focus start the 500 ms close timer. GLib timeout
      sources are numbered from 1; `liveTimers` are the ones still scheduled,
      and `closeRequests` counts the calls to `close()`. */
  class AppWindow {
    const closeOnFocusLoss: bool
    var canCloseOnFocusLoss: bool
    var graceTimerId: Option<nat>
    var closeTimeoutId: Option<nat>
    var liveTimers: set<nat>
    var nextTimerId: nat
    var closeRequests: nat

    /** The live timers are exactly the grace timer and the close timer, which
        are distinct; the close timer is pending only once closing on focus
        loss is enabled, and that happens only after the grace period of a
        window that asked for it. */
    ghost predicate Valid()
      reads this
    {
      && 1 <= nextTimerId
      && (forall t :: t in liveTimers ==> 1 <= t < nextTimerId)
      && liveTimers == Pending(graceTimerId) + Pending(closeTimeoutId)
      && (graceTimerId.Some? && closeTimeoutId.Some? ==> graceTimerId.value != closeTimeoutId.value)
      && (canCloseOnFocusLoss ==> closeOnFocusLoss)
      && (graceTimerId.Some? ==> closeOnFocusLoss && !canCloseOnFocusLoss)
      && (closeTimeoutId.Some? ==> canCloseOnFocusLoss)
    }

    /** A new window cannot yet close on focus loss and has no close timer;
        the grace timer is scheduled only when focus loss should close it. */
    constructor (closeOnFocusLoss: bool)
      ensures Valid()
      ensures this.closeOnFocusLoss == closeOnFocusLoss
      ensures !canCloseOnFocusLoss && closeTimeoutId == None
      ensures graceTimerId.Some? <==> closeOnFocusLoss
      ensures closeRequests == 0
    {
      this.closeOnFocusLoss := closeOnFocusLoss;
      canCloseOnFocusLoss := false;
      closeTimeoutId := None;
      closeRequests := 0;
      if closeOnFocusLoss {
        graceTimerId := Some(1);
        liveTimers := {1};
        nextTimerId := 2;
      } else {
        graceTimerId := None;
        liveTimers := {};
        nextTimerId := 1;
      }
    }

    /** `enable_focus_loss_close`: the grace timer fires, enables closing on
        focus loss and is removed. */
    method EnableFocusLossClose()
      requires Valid() && graceTimerId.Some?
      modifies this
      ensures Valid()
      ensures canCloseOnFocusLoss && graceTimerId == None
      ensures liveTimers == old(liveTimers) - {old(graceTimerId).value}
      ensures closeTimeoutId == old(closeTimeoutId) && closeRequests == old(closeRequests)
    {
      canCloseOnFocusLoss := true;
      liveTimers := liveTimers - {graceTimerId.value};
      graceTimerId := None;
    }

    /** `on_focus_leave`: nothing until closing on focus loss is enabled; then
        any pending close timer is removed before a fresh one is scheduled, so
        exactly one is pending afterwards. */
    method OnFocusLeave()
      requires Valid()
      modifies this
      ensures Valid()
      ensures !old(canCloseOnFocusLoss) ==>
        closeTimeoutId == old(closeTimeoutId) && liveTimers == old(liveTimers)
      ensures old(canCloseOnFocusLoss) ==>
        && closeTimeoutId == Some(old(nextTimerId))
        && liveTimers == Pending(graceTimerId) + {old(nextTimerId)}
        && (old(closeTimeoutId).Some? ==> old(closeTimeoutId).value !in liveTimers)
      ensures canCloseOnFocusLoss == old(canCloseOnFocusLoss) && graceTimerId == old(graceTimerId)
      ensures closeRequests == old(closeRequests)
    {
      if !canCloseOnFocusLoss {
        return;
      }
      if closeTimeoutId.Some? {
        liveTimers := liveTimers - {closeTimeoutId.value};
      }
      var id := nextTimerId;
      nextTimerId := nextTimerId + 1;
      liveTimers := liveTimers + {id};
      closeTimeoutId := Some(id);
    }

    /** `on_focus_enter`: a pending close timer is removed and forgotten. */
    method OnFocusEnter()
      requires Valid()
      modifies this
      ensures Valid()
      ensures closeTimeoutId == None
      ensures liveTimers == Pending(graceTimerId)
      ensures old(closeTimeoutId).Some? ==> old(closeTimeoutId).value !in liveTimers
      ensures canCloseOnFocusLoss == old(canCloseOnFocusLoss) && graceTimerId == old(graceTimerId)
      ensures closeRequests == old(closeRequests)
    {
      if closeTimeoutId.Some? {
        liveTimers := liveTimers - {closeTimeoutId.value};
        closeTimeoutId := None;
      }
    }

    /** `_close_timeout`: the close timer fires, closes the window and is
        forgotten; it does not repeat. */
    method CloseTimeout()
      requires Valid() && closeTimeoutId.Some?
      modifies this
      ensures Valid()
      ensures closeRequests == old(closeRequests) + 1
      ensures closeTimeoutId == None
      ensures liveTimers == old(liveTimers) - {old(closeTimeoutId).value}
      ensures canCloseOnFocusLoss == old(canCloseOnFocusLoss) && graceTimerId == old(graceTimerId)
    {
      closeRequests := closeRequests + 1;
      liveTimers := liveTimers - {closeTimeoutId.value};
      closeTimeoutId := None;
    }
  }

  // ---------------------------------------------------------------------------
  // QuickApp
  // ---------------------------------------------------------------------------

  const AppIdPrefix: string := "myui."

  /** The application id: `"myui.<tag>"` when a non-empty window tag is given,
      the id passed in otherwise. */
  function AppId(applicationId: string, windowTag: Option<string>): (id: string)
    ensures Truthy(windowTag) ==> |id| > |AppIdPrefix| && id[..|AppIdPrefix|] == AppIdPrefix
    ensures !Truthy(windowTag) ==> id == applicationId
  {
    if Truthy(windowTag) then AppIdPrefix + windowTag.value else applicationId
  }

  /** The tag can be read back from a derived application id. */
  lemma AppIdTagReadsBack(applicationId: string, tag: string)
    requires tag != ""
    ensures AppId(applicationId, Some(tag))[|AppIdPrefix|..] == tag
  {
    assert (AppIdPrefix + tag)[|AppIdPrefix|..] == tag;
  }

  /** Popups with different tags get different application ids, whatever ids
      they were constructed with. */
  lemma AppIdsDistinct(id1: string, tag1: string, id2: string, tag2: string)
    requires tag1 != "" && tag2 != "" && tag1 != tag2
    ensures AppId(id1, Some(tag1)) != AppId(id2, Some(tag2))
  {
    AppIdTagReadsBack(id1, tag1);
    AppIdTagReadsBack(id2, tag2);
  }

  /** A keyword argument for the window class: a text, or any other object. */
  datatype KwargValue = Text(s: string) | Object(h: Handle)

  const WindowTagKey: string := "window_tag"

  /** A quick application: its id and the keyword arguments its window will
      be created with. */
  class QuickApp {
    var applicationId: string
    var windowKwargs: map<string, KwargValue>

    /** A non-empty window tag names the application and is passed on to the
        window, unless the window arguments already name a tag; the arguments
        given are kept as they are. */
    constructor (applicationId: string, windowTag: Option<string>, windowKwargs: map<string, KwargValue>)
      ensures this.applicationId == AppId(applicationId, windowTag)
      ensures this.windowKwargs.Keys == windowKwargs.Keys + (if Truthy(windowTag) then {WindowTagKey} else {})
      ensures forall k :: k in windowKwargs ==> this.windowKwargs[k] == windowKwargs[k]
      ensures Truthy(windowTag) && WindowTagKey !in windowKwargs ==>
        this.windowKwargs[WindowTagKey] == Text(windowTag.value)
    {
      var id := applicationId;
      if Truthy(windowTag) {
        id := AppIdPrefix + windowTag.value;
      }
      this.applicationId := id;
      this.windowKwargs := windowKwargs;
      new;
      if Truthy(windowTag) && WindowTagKey !in this.windowKwargs {
        this.windowKwargs := this.windowKwargs[WindowTagKey := Text(windowTag.value)];
      }
    }
  }
}
