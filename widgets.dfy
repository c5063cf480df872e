// Reusable widget state: the slider's drag debounce, the progress row's clamp
// and the clickable list's row and callback table.

module Widgets {
  import opened Wrappers
  import opened Text
  import AsyncUtils

  // ---------------------------------------------------------------------------
  // SliderRow
  // ---------------------------------------------------------------------------

  /** The value a `Gtk.Scale` keeps when asked to show `v`: its range bounds it. */
  function ClampInt(v: int, lo: int, hi: int): (r: int)
    requires lo <= hi
    ensures lo <= r <= hi
    ensures lo <= v <= hi ==> r == v
    ensures v < lo ==> r == lo
    ensures v > hi ==> r == hi
  {
    if v < lo then lo else if v > hi then hi else v
  }

  /** The text of the optional value label, `f"{value}%"`. */
  function PercentLabel(v: int): (s: string)
    ensures |s| >= 2 && s[|s| - 1] == '%'
  {
    IntToString(v) + "%"
  }

  /** The number shown before the '%' reads back as the value. */
  lemma PercentLabelReadsBack(v: int)
    ensures var s := PercentLabel(v); ParseInt(s[..|s| - 1]) == Some(v)
  {
    var digits := IntToString(v);
    assert PercentLabel(v)[..|PercentLabel(v)| - 1] == digits;
    ParseIntToString(v);
  }

  /** A labelled slider. The scale's value, the value label, the drag-release
      bookkeeping (`_last_value`, `_drag_timeout_id`) and the calls made to the
      two user callbacks, recorded with the value the slider held. GLib timeout
      sources are numbered from 1; `liveTimers` are the ones still scheduled. */
  class SliderRow {
    const minValue: int
    const maxValue: int
    const hasCallback: bool
    const hasReleaseCallback: bool
    const showValue: bool
    var value: int
    var valueLabel: string
    var lastValue: int
    var dragTimeoutId: Option<nat>
    var liveTimers: set<nat>
    var nextTimerId: nat
    var callbackCalls: seq<int>
    var releaseCalls: seq<int>

    /** The value stays in range, and at most one drag timeout is pending: the
        one `dragTimeoutId` names, and only a slider with a release callback
        ever schedules one. */
    ghost predicate Valid()
      reads this
    {
      && minValue < maxValue
      && minValue <= value <= maxValue
      && 1 <= nextTimerId
      && (forall t :: t in liveTimers ==> 1 <= t < nextTimerId)
      && (dragTimeoutId.None? ==> liveTimers == {})
      && (dragTimeoutId.Some? ==> liveTimers == {dragTimeoutId.value} && hasReleaseCallback)
    }

    /** The scale is set to the initial value before any handler is connected,
        so no callback runs; `_last_value` keeps the initial value as given. */
    constructor (minValue: int, maxValue: int, initialValue: int,
                 hasCallback: bool, hasReleaseCallback: bool, showValue: bool)
      requires minValue < maxValue
      ensures Valid()
      ensures this.minValue == minValue && this.maxValue == maxValue
      ensures this.hasCallback == hasCallback && this.hasReleaseCallback == hasReleaseCallback
      ensures this.showValue == showValue
      ensures value == ClampInt(initialValue, minValue, maxValue)
      ensures valueLabel == (if showValue then PercentLabel(initialValue) else "")
      ensures lastValue == initialValue
      ensures dragTimeoutId == None && liveTimers == {}
      ensures callbackCalls == [] && releaseCalls == []
    {
      this.minValue := minValue;
      this.maxValue := maxValue;
      this.hasCallback := hasCallback;
      this.hasReleaseCallback := hasReleaseCallback;
      this.showValue := showValue;
      value := ClampInt(initialValue, minValue, maxValue);
      valueLabel := if showValue then PercentLabel(initialValue) else "";
      lastValue := initialValue;
      dragTimeoutId := None;
      liveTimers := {};
      nextTimerId := 1;
      callbackCalls := [];
      releaseCalls := [];
    }

    /** `_on_value_changed`: refreshes the label and calls the plain callback,
        but only on a slider without a release callback. */
    method OnValueChanged()
      modifies this
      ensures valueLabel == (if showValue then PercentLabel(value) else old(valueLabel))
      ensures callbackCalls ==
        old(callbackCalls) + (if hasCallback && !hasReleaseCallback then [value] else [])
      ensures value == old(value) && lastValue == old(lastValue)
      ensures dragTimeoutId == old(dragTimeoutId) && liveTimers == old(liveTimers)
      ensures nextTimerId == old(nextTimerId) && releaseCalls == old(releaseCalls)
    {
      if showValue {
        valueLabel := PercentLabel(value);
      }
      if hasCallback && !hasReleaseCallback {
        callbackCalls := callbackCalls + [value];
      }
    }

    /** `set_value`: the scale clamps the value and emits "value-changed" only
        when it actually changed. No drag timeout is involved. */
    method SetValue(v: int)
      requires Valid()
      modifies this
      ensures Valid()
      ensures value == ClampInt(v, minValue, maxValue)
      ensures valueLabel == (if showValue && value != old(value) then PercentLabel(value) else old(valueLabel))
      ensures callbackCalls == old(callbackCalls) +
        (if value != old(value) && hasCallback && !hasReleaseCallback then [value] else [])
      ensures lastValue == old(lastValue) && releaseCalls == old(releaseCalls)
      ensures dragTimeoutId == old(dragTimeoutId) && liveTimers == old(liveTimers)
      ensures nextTimerId == old(nextTimerId)
    {
      var clamped := ClampInt(v, minValue, maxValue);
      if clamped != value {
        value := clamped;
        OnValueChanged();
      }
    }

    /** A user drag or scroll to `v`. With a release callback, "change-value"
        runs `_on_change_value` first: it removes the pending timeout, if any,
        and schedules a fresh 200 ms one. The default handler then sets the
        value as `SetValue` does. */
    method UserChange(v: int)
      requires Valid()
      modifies this
      ensures Valid()
      ensures value == ClampInt(v, minValue, maxValue)
      ensures valueLabel == (if showValue && value != old(value) then PercentLabel(value) else old(valueLabel))
      ensures callbackCalls == old(callbackCalls) +
        (if value != old(value) && hasCallback && !hasReleaseCallback then [value] else [])
      ensures nextTimerId == old(nextTimerId) + (if hasReleaseCallback then 1 else 0)
      ensures hasReleaseCallback ==>
        && dragTimeoutId == Some(old(nextTimerId))
        && liveTimers == {old(nextTimerId)}
        && (old(dragTimeoutId).Some? ==> old(dragTimeoutId).value !in liveTimers)
      ensures !hasReleaseCallback ==>
        dragTimeoutId == old(dragTimeoutId) && liveTimers == old(liveTimers)
      ensures lastValue == old(lastValue) && releaseCalls == old(releaseCalls)
    {
      if hasReleaseCallback {
        if dragTimeoutId.Some? {
          liveTimers := liveTimers - {dragTimeoutId.value};
        }
        var id := nextTimerId;
        nextTimerId := nextTimerId + 1;
        liveTimers := liveTimers + {id};
        dragTimeoutId := Some(id);
      }
      SetValue(v);
    }

    /** `_on_drag_timeout`: the pending timeout fires. The release callback
        runs exactly when the value differs from the one last reported, which
        then becomes the current value; the timeout does not repeat. */
    method OnDragTimeout()
      requires Valid() && dragTimeoutId.Some?
      modifies this
      ensures Valid()
      ensures releaseCalls == old(releaseCalls) + (if old(value) != old(lastValue) then [value] else [])
      ensures lastValue == value
      ensures dragTimeoutId == None && liveTimers == {}
      ensures value == old(value) && valueLabel == old(valueLabel)
      ensures callbackCalls == old(callbackCalls) && nextTimerId == old(nextTimerId)
    {
      var current := value;
      if current != lastValue {
        if hasReleaseCallback {
          releaseCalls := releaseCalls + [current];
        }
        lastValue := current;
      }
      liveTimers := liveTimers - {dragTimeoutId.value};
      dragTimeoutId := None;
    }
  }

  // ---------------------------------------------------------------------------
  // ProgressRow
  // ---------------------------------------------------------------------------

  /** An info row with a progress bar; `fraction` is the last value handed to
      the bar's `set_fraction`. */
  class ProgressRow {
    var fraction: real

    /** The initial progress is passed on without clamping. */
    constructor (initialProgress: real)
      ensures fraction == initialProgress
    {
      fraction := initialProgress;
    }

    /** `set_progress`: the fraction is clamped to [0, 1] first. */
    method SetProgress(f: real)
      modifies this
      ensures fraction == AsyncUtils.Clamp01(f)
      ensures 0.0 <= fraction <= 1.0
      ensures 0.0 <= f <= 1.0 ==> fraction == f
    {
      fraction := AsyncUtils.Clamp01(f);
    }
  }

  // ---------------------------------------------------------------------------
  // ListWidget
  // ---------------------------------------------------------------------------

  /** A row of the list box: a clickable item or a non-activatable separator.
      Rows are identified by the number they were created with. */
  datatype Row =
    | Item(id: nat, icon: string, title: string, subtitle: string)
    | Separator(id: nat)

  /** An `_item_callbacks` entry: the left and right click callbacks and the
      data both receive. */
  datatype Entry = Entry(leftClick: Option<Handle>, rightClick: Option<Handle>, data: Option<Handle>)

  /** One call `callback(row, data)` made on row activation. */
  datatype Activation = Activation(callback: Handle, row: nat, data: Option<Handle>)

  /** The ids of the clickable items among `rows`. */
  function ItemIds(rows: seq<Row>): (ids: set<nat>)
    ensures forall i :: 0 <= i < |rows| && rows[i].Item? ==> rows[i].id in ids
    ensures forall k :: k in ids ==> exists i :: 0 <= i < |rows| && rows[i].Item? && rows[i].id == k
  {
    set i | 0 <= i < |rows| && rows[i].Item? :: rows[i].id
  }

  /** Appending a row adds its id to the item ids exactly when it is an item. */
  lemma ItemIdsAppend(rows: seq<Row>, r: Row)
    ensures ItemIds(rows + [r]) == ItemIds(rows) + (if r.Item? then {r.id} else {})
  {
    var rs := rows + [r];
    forall k | k in ItemIds(rs)
      ensures k in ItemIds(rows) + (if r.Item? then {r.id} else {})
    {
      var i :| 0 <= i < |rs| && rs[i].Item? && rs[i].id == k;
      if i < |rows| {
        assert rows[i] == rs[i];
      }
    }
    forall k | k in ItemIds(rows)
      ensures k in ItemIds(rs)
    {
      var i :| 0 <= i < |rows| && rows[i].Item? && rows[i].id == k;
      assert rs[i] == rows[i];
    }
    assert rs[|rows|] == r;
  }

  /** Rows are kept in creation order. */
  ghost predicate IdsIncreasing(rows: seq<Row>)
  {
    forall i, j :: 0 <= i < j < |rows| ==> rows[i].id < rows[j].id
  }

  /** A row with a fresh id, larger than all others, keeps the order. */
  lemma AppendKeepsIncreasing(rows: seq<Row>, r: Row)
    requires IdsIncreasing(rows)
    requires forall i :: 0 <= i < |rows| ==> rows[i].id < r.id
    ensures IdsIncreasing(rows + [r])
    ensures forall i :: 0 <= i < |rows + [r]| ==> (rows + [r])[i].id <= r.id
  {
    var rs := rows + [r];
    forall i, j | 0 <= i < j < |rs|
      ensures rs[i].id < rs[j].id
    {
      assert rs[i] == rows[i];
      if j < |rows| {
        assert rs[j] == rows[j];
      }
    }
  }

  /** A scrollable list of clickable items. */
  /** Rows appear in creation order with ids below `nextRowId`; every
      callback entry belongs to an item row of the list and holds at least
      one callback. */
  ghost predicate WellFormedList(rows: seq<Row>, itemCallbacks: map<nat, Entry>, nextRowId: nat) {
    && IdsIncreasing(rows)
    && (forall i :: 0 <= i < |rows| ==> rows[i].id < nextRowId)
    && itemCallbacks.Keys <= ItemIds(rows)
    && (forall k :: k in itemCallbacks ==> itemCallbacks[k].leftClick.Some? || itemCallbacks[k].rightClick.Some?)
  }

  /** Appending an item under the next id, with or without a callback entry
      for it, keeps the list well formed. */
  lemma AppendItemWellFormed(rows: seq<Row>, itemCallbacks: map<nat, Entry>, nextRowId: nat,
                             item: Row, entry: Option<Entry>)
    requires WellFormedList(rows, itemCallbacks, nextRowId)
    requires item.Item? && item.id == nextRowId
    requires entry.Some? ==> entry.value.leftClick.Some? || entry.value.rightClick.Some?
    ensures nextRowId !in itemCallbacks
    ensures WellFormedList(rows + [item], if entry.Some? then itemCallbacks[nextRowId := entry.value] else itemCallbacks,
                           nextRowId + 1)
  {
    ItemIdsAppend(rows, item);
    AppendKeepsIncreasing(rows, item);
  }

  class ListWidget {
    var rows: seq<Row>
    var itemCallbacks: map<nat, Entry>
    var nextRowId: nat
    var activations: seq<Activation>

    /** Rows appear in creation order with ids below `nextRowId`; every
        callback entry belongs to an item row of the list and holds at least
        one callback. */
    ghost predicate Valid()
      reads this
    {
      WellFormedList(rows, itemCallbacks, nextRowId)
    }

    constructor ()
      ensures Valid()
      ensures rows == [] && itemCallbacks == map[] && activations == []
    {
      rows := [];
      itemCallbacks := map[];
      nextRowId := 0;
      activations := [];
    }

    /** `add_item`: appends an item row; it gets a callback entry exactly when
        a left or a right click callback is given. */
    method AddItem(icon: string, title: string, subtitle: string,
                   callback: Option<Handle>, rightClickCallback: Option<Handle>, data: Option<Handle>)
      returns (row: nat)
      requires Valid()
      modifies this
      ensures Valid()
      ensures row == old(nextRowId) && row !in old(itemCallbacks)
      ensures rows == old(rows) + [Item(row, icon, title, subtitle)]
      ensures itemCallbacks ==
        if callback.Some? || rightClickCallback.Some?
        then old(itemCallbacks)[row := Entry(callback, rightClickCallback, data)]
        else old(itemCallbacks)
      ensures activations == old(activations)
    {
      row := nextRowId;
      var item := Item(row, icon, title, subtitle);
      var entry := if callback.Some? || rightClickCallback.Some? then Some(Entry(callback, rightClickCallback, data)) else None;
      AppendItemWellFormed(rows, itemCallbacks, nextRowId, item, entry);
      nextRowId := nextRowId + 1;
      if entry.Some? {
        itemCallbacks := itemCallbacks[row := entry.value];
      }
      rows := rows + [item];
    }

    /** `clear_items`: empties the callback table, then removes the first row
        until none is left. */
    method ClearItems()
      requires Valid()
      modifies this
      ensures Valid()
      ensures rows == [] && itemCallbacks == map[]
      ensures nextRowId == old(nextRowId) && activations == old(activations)
    {
      itemCallbacks := map[];
      while |rows| > 0
        invariant itemCallbacks == map[]
        invariant rows == old(rows)[|old(rows)| - |rows|..]
        invariant nextRowId == old(nextRowId) && activations == old(activations)
        decreases |rows|
      {
        rows := rows[1..];
      }
    }

    /** `_on_row_activated`: calls the stored left click callback with the row
        and its data when the row has an entry whose left callback is set;
        otherwise nothing happens. A separator never calls anything. */
    method OnRowActivated(row: nat)
      requires Valid()
      modifies this
      ensures Valid()
      ensures activations == old(activations) +
        (if row in old(itemCallbacks) && old(itemCallbacks)[row].leftClick.Some?
         then [Activation(old(itemCallbacks)[row].leftClick.value, row, old(itemCallbacks)[row].data)]
         else [])
      ensures (exists i :: 0 <= i < |rows| && rows[i] == Separator(row)) ==> activations == old(activations)
      ensures rows == old(rows) && itemCallbacks == old(itemCallbacks) && nextRowId == old(nextRowId)
    {
      if row in itemCallbacks {
        var entry := itemCallbacks[row];
        if entry.leftClick.Some? {
          activations := activations + [Activation(entry.leftClick.value, row, entry.data)];
        }
      }
    }

    /** `set_loading(True)` leaves a single "Loading..." item with no callback;
        `set_loading(False)` does nothing. */
    method SetLoading(loading: bool)
      requires Valid()
      modifies this
      ensures Valid()
      ensures loading ==>
        && |rows| == 1
        && rows[0] == Item(old(nextRowId), "", "Loading...", "Please wait")
        && itemCallbacks == map[]
      ensures !loading ==> rows == old(rows) && itemCallbacks == old(itemCallbacks)
      ensures activations == old(activations)
    {
      if loading {
        ClearItems();
        var _ := AddItem("", "Loading...", "Please wait", None, None, None);
      }
    }

    /** `add_separator`: appends a non-activatable row with no callback entry. */
    method AddSeparator()
      requires Valid()
      modifies this
      ensures Valid()
      ensures rows == old(rows) + [Separator(old(nextRowId))]
      ensures itemCallbacks == old(itemCallbacks) && activations == old(activations)
    {
      ItemIdsAppend(rows, Separator(nextRowId));
      AppendKeepsIncreasing(rows, Separator(nextRowId));
      rows := rows + [Separator(nextRowId)];
      nextRowId := nextRowId + 1;
    }
  }
}
