/**
 * Background-task bookkeeping (widgets/myui/async_utils.py) without threads.
 *
 * Submitting work is one step: it allocates an id and registers the task as
 * active. A worker finishing is one atomic step: it appends at most one
 * callback to the main loop's idle queue and then drops the task from the
 * active table. The main loop runs queued calls one at a time, first in first
 * out. Calls into `GLib.idle_add` become appends to a `seq` field.
 */
module AsyncUtils {
  import opened Wrappers
  import opened Text

  // ---------------------------------------------------------------------------
  // Thread ids
  // ---------------------------------------------------------------------------

  /** The id `run_async` gives its `counter`-th task: `"<name>_N"` when a
      non-empty name is given, `"thread_N"` otherwise. */
  function ThreadId(counter: nat, name: Option<string>): (id: string)
    ensures AfterLast(id, '_') == NatToString(counter)
  {
    var prefix := if Truthy(name) then name.value else "thread";
    AfterLastOfSuffix(prefix, '_', NatToString(counter));
    prefix + "_" + NatToString(counter)
  }

  /** Ids of tasks submitted under different counter values differ, whatever
      names were given: the text after the last underscore is the counter. */
  lemma ThreadIdsDistinct(k1: nat, n1: Option<string>, k2: nat, n2: Option<string>)
    requires k1 != k2
    ensures ThreadId(k1, n1) != ThreadId(k2, n2)
  {
    if ThreadId(k1, n1) == ThreadId(k2, n2) {
      NatToStringInjective(k1, k2);
    }
  }

  // ---------------------------------------------------------------------------
  // Tasks and their completion
  // ---------------------------------------------------------------------------

  /** How the target function ended when it was called. */
  datatype Outcome = Returned(value: Handle) | Raised(exception: string)

  /** What a scheduled callback is given: the result or the exception. */
  datatype CallbackArg = Result(value: Handle) | Exception(message: string)

  /** One `GLib.idle_add(self._safe_callback, callback, data, thread_id)`. */
  datatype IdleCall = IdleCall(callback: Handle, arg: CallbackArg, threadId: string)

  /** What `run_async` captured for the worker: the counter value it used, the
      name, the keyword arguments, the three optional callbacks, and the
      names in the target's code object (`None` when the target has no
      `__code__`). */
  datatype Task = Task(
    counter: nat,
    name: Option<string>,
    kwargs: map<string, Handle>,
    onSuccess: Option<Handle>,
    onError: Option<Handle>,
    onProgress: Option<Handle>,
    varnames: Option<set<string>>)

  const ProgressKey := "progress_callback"
  const NoCodeAttribute := "AttributeError: __code__"

  /** The keyword arguments the worker calls the target with: the progress
      callback is added under `progress_callback` when one was supplied and the
      target's code names `progress_callback`. Looking up the code of a target
      that has none raises before the target is called. */
  function CallKwargs(t: Task): Option<map<string, Handle>> {
    if t.onProgress.None? then Some(t.kwargs)
    else if t.varnames.None? then None
    else if ProgressKey in t.varnames.value then Some(t.kwargs[ProgressKey := t.onProgress.value])
    else Some(t.kwargs)
  }

  /** How the worker's `try` block ends, given what the target does when called. */
  function WorkerOutcome(t: Task, target: Outcome): Outcome {
    if CallKwargs(t).None? then Raised(NoCodeAttribute) else target
  }

  /** The idle calls the worker schedules: the success callback with the result
      after a normal return, the error callback with the exception after a
      raise, each only when it was supplied. */
  function Scheduled(t: Task, id: string, outcome: Outcome): seq<IdleCall> {
    match outcome
    case Returned(v) => if t.onSuccess.Some? then [IdleCall(t.onSuccess.value, Result(v), id)] else []
    case Raised(e) => if t.onError.Some? then [IdleCall(t.onError.value, Exception(e), id)] else []
  }

  /** At most one callback per task, and it is the success callback exactly when
      the target returned and one was supplied, the error callback exactly when
      it raised and one was supplied. */
  lemma AtMostOneCallback(t: Task, id: string, target: Outcome)
    ensures var calls := Scheduled(t, id, WorkerOutcome(t, target));
      && |calls| <= 1
      && (|calls| == 1 && calls[0].arg.Result? <==>
            CallKwargs(t).Some? && target.Returned? && t.onSuccess.Some?)
      && (|calls| == 1 && calls[0].arg.Exception? <==>
            (CallKwargs(t).None? || target.Raised?) && t.onError.Some?)
      && (forall c :: c in calls ==> c.threadId == id)
  {
  }

  /** The progress callback is passed to the target exactly when it was
      supplied and the target's code names `progress_callback` (or the caller
      put that key in the keyword arguments already); every other keyword
      argument is passed unchanged. */
  lemma ProgressInjection(t: Task)
    requires CallKwargs(t).Some?
    ensures var kw := CallKwargs(t).value;
      && (ProgressKey in kw <==>
            ProgressKey in t.kwargs || (t.onProgress.Some? && ProgressKey in t.varnames.value))
      && (forall k :: k in t.kwargs && k != ProgressKey ==> k in kw && kw[k] == t.kwargs[k])
      && kw.Keys <= t.kwargs.Keys + {ProgressKey}
  {
  }

  // ---------------------------------------------------------------------------
  // ThreadRunner
  // ---------------------------------------------------------------------------

  class ThreadRunner {
    /** `active_threads`: the tasks submitted whose worker has not finished. */
    var activeThreads: map<string, Task>
    /** `thread_counter`. */
    var threadCounter: nat
    /** The main loop's idle queue, as far as this runner filled it. */
    var idleQueue: seq<IdleCall>
    /** The callbacks the main loop has run, in order. */
    var delivered: seq<IdleCall>

    /** Every active task sits under the id made from its own counter value,
        which the counter has already reached. */
    ghost predicate Valid()
      reads this
    {
      forall id :: id in activeThreads ==>
        && activeThreads[id].counter <= threadCounter
        && id == ThreadId(activeThreads[id].counter, activeThreads[id].name)
    }

    constructor ()
      ensures Valid()
      ensures activeThreads == map[] && threadCounter == 0
      ensures idleQueue == [] && delivered == []
    {
      activeThreads := map[];
      threadCounter := 0;
      idleQueue := [];
      delivered := [];
    }

    /** `run_async`: increments the counter, forms the id and registers the task
        before its worker starts. */
    method RunAsync(kwargs: map<string, Handle>, onSuccess: Option<Handle>, onError: Option<Handle>,
                    onProgress: Option<Handle>, name: Option<string>, varnames: Option<set<string>>)
      returns (id: string)
      requires Valid()
      modifies this
      ensures Valid()
      ensures threadCounter == old(threadCounter) + 1
      ensures id == ThreadId(threadCounter, name)
      ensures id !in old(activeThreads)
      ensures activeThreads == old(activeThreads)[id := Task(threadCounter, name, kwargs, onSuccess, onError, onProgress, varnames)]
      ensures idleQueue == old(idleQueue) && delivered == old(delivered)
    {
      threadCounter := threadCounter + 1;
      id := ThreadId(threadCounter, name);
      if id in activeThreads {
        ThreadIdsDistinct(activeThreads[id].counter, activeThreads[id].name, threadCounter, name);
        assert false;
      }
      var task := Task(threadCounter, name, kwargs, onSuccess, onError, onProgress, varnames);
      activeThreads := activeThreads[id := task];
    }

    /** `thread_worker` of task `id` finishing, given what its target does when
        called: schedules at most one callback, then (the `finally` block)
        removes the task from the active table. Returns the keyword arguments
        the target was called with, or `None` when it was not called. */
    method ThreadWorker(id: string, target: Outcome) returns (calledWith: Option<map<string, Handle>>)
      requires Valid() && id in activeThreads
      modifies this
      ensures Valid()
      ensures calledWith == CallKwargs(old(activeThreads)[id])
      ensures idleQueue == old(idleQueue) + Scheduled(old(activeThreads)[id], id, WorkerOutcome(old(activeThreads)[id], target))
      ensures activeThreads == old(activeThreads) - {id}
      ensures threadCounter == old(threadCounter) && delivered == old(delivered)
    {
      var t := activeThreads[id];
      var outcome: Outcome;
      calledWith := CallKwargs(t);
      if calledWith.None? {
        outcome := Raised(NoCodeAttribute);
      } else {
        outcome := target;
      }
      match outcome {
        case Returned(v) =>
          if t.onSuccess.Some? {
            idleQueue := idleQueue + [IdleCall(t.onSuccess.value, Result(v), id)];
          }
        case Raised(e) =>
          if t.onError.Some? {
            idleQueue := idleQueue + [IdleCall(t.onError.value, Exception(e), id)];
          }
      }
      if id in activeThreads {
        activeThreads := activeThreads - {id};
      }
    }

    /** One main-loop iteration: the oldest idle call runs `_safe_callback`,
        which calls the callback, swallows anything it raises, and returns
        False, so GLib drops the call instead of repeating it. */
    method RunIdle() returns (ran: Option<IdleCall>)
      modifies this
      ensures old(idleQueue) == [] ==> ran == None && idleQueue == [] && delivered == old(delivered)
      ensures old(idleQueue) != [] ==>
        && ran == Some(old(idleQueue)[0])
        && idleQueue == old(idleQueue)[1..]
        && delivered == old(delivered) + [old(idleQueue)[0]]
      ensures activeThreads == old(activeThreads) && threadCounter == old(threadCounter)
    {
      if idleQueue == [] {
        return None;
      }
      var call := idleQueue[0];
      idleQueue := idleQueue[1..];
      delivered := delivered + [call];
      ran := Some(call);
    }

    /** `cancel_thread`: only reports (by printing) whether the id is active;
        nothing is changed. */
    method CancelThread(id: string) returns (reported: bool)
      ensures reported <==> id in activeThreads
    {
      reported := id in activeThreads;
    }

    /** `get_active_threads`: the active ids, each once, in the order they
        were submitted (the dictionary's insertion order), which is the order
        of their counters. */
    method GetActiveThreads() returns (ids: seq<string>)
      ensures forall x :: x in ids <==> x in activeThreads
      ensures forall i, j :: 0 <= i < j < |ids| ==> ids[i] != ids[j]
      ensures forall i, j :: 0 <= i < j < |ids| ==> activeThreads[ids[i]].counter <= activeThreads[ids[j]].counter
    {
      ids := [];
      var remaining := activeThreads.Keys;
      while remaining != {}
        invariant remaining <= activeThreads.Keys
        invariant forall x :: x in ids <==> x in activeThreads && x !in remaining
        invariant forall i, j :: 0 <= i < j < |ids| ==> ids[i] != ids[j]
        invariant forall i :: 0 <= i < |ids| ==> ids[i] in activeThreads
        invariant forall i, j :: 0 <= i < j < |ids| ==> activeThreads[ids[i]].counter <= activeThreads[ids[j]].counter
        invariant forall i, y :: 0 <= i < |ids| && y in remaining ==> activeThreads[ids[i]].counter <= activeThreads[y].counter
        decreases remaining
      {
        EarliestExists(activeThreads, remaining);
        var x :| IsEarliest(activeThreads, remaining, x);
        ids := ids + [x];
        remaining := remaining - {x};
      }
    }
  }

  /** `x` is among `ids` and was submitted no later than any of them. */
  predicate IsEarliest(active: map<string, Task>, ids: set<string>, x: string)
    requires ids <= active.Keys
  {
    x in ids && forall y :: y in ids ==> active[x].counter <= active[y].counter
  }

  /** Among some active ids there is one submitted no later than the others. */
  lemma {:induction false} EarliestExists(active: map<string, Task>, ids: set<string>)
    requires ids != {} && ids <= active.Keys
    ensures exists x :: IsEarliest(active, ids, x)
    decreases ids
  {
    var z :| z in ids;
    var rest := ids - {z};
    if rest == {} {
      assert ids == {z};
      assert IsEarliest(active, ids, z);
    } else {
      EarliestExists(active, rest);
      var w :| IsEarliest(active, rest, w);
      if active[z].counter <= active[w].counter {
        assert IsEarliest(active, ids, z);
      } else {
        assert IsEarliest(active, ids, w);
      }
    }
  }

  // ---------------------------------------------------------------------------
  // ProgressMonitor
  // ---------------------------------------------------------------------------

  /** One `GLib.idle_add(callback, progress, status)`. */
  datatype Notification = Notification(callback: Handle, progress: real, status: string)

  /** `max(0.0, min(1.0, x))`. */
  function Clamp01(x: real): (r: real)
    ensures 0.0 <= r <= 1.0
    ensures 0.0 <= x <= 1.0 ==> r == x
    ensures x < 0.0 ==> r == 0.0
    ensures x > 1.0 ==> r == 1.0
  {
    if x < 0.0 then 0.0 else if x > 1.0 then 1.0 else x
  }

  /** The notifications sent to each registered callback, in registration order. */
  function NotifyAll(callbacks: seq<Handle>, progress: real, status: string): (ns: seq<Notification>)
    ensures |ns| == |callbacks|
    ensures forall i :: 0 <= i < |ns| ==> ns[i] == Notification(callbacks[i], progress, status)
  {
    seq(|callbacks|, i requires 0 <= i < |callbacks| => Notification(callbacks[i], progress, status))
  }

  const CancelledStatus := "Cancelled"

  class ProgressMonitor {
    const operationName: string
    var cancelled: bool
    var progress: real
    var status: string
    var callbacks: seq<Handle>
    /** The idle calls this monitor has scheduled, oldest first. */
    var notifications: seq<Notification>

    constructor (operationName: string)
      ensures this.operationName == operationName
      ensures !cancelled && progress == 0.0 && status == "Starting..."
      ensures callbacks == [] && notifications == []
    {
      this.operationName := operationName;
      cancelled := false;
      progress := 0.0;
      status := "Starting...";
      callbacks := [];
      notifications := [];
    }

    method AddCallback(callback: Handle)
      modifies this
      ensures callbacks == old(callbacks) + [callback]
      ensures cancelled == old(cancelled) && progress == old(progress) && status == old(status)
      ensures notifications == old(notifications)
    {
      callbacks := callbacks + [callback];
    }

    /** Sends the current progress and status to every callback. */
    method Notify()
      modifies this
      ensures notifications == old(notifications) + NotifyAll(callbacks, progress, status)
      ensures cancelled == old(cancelled) && progress == old(progress) && status == old(status)
      ensures callbacks == old(callbacks)
    {
      var i := 0;
      while i < |callbacks|
        invariant 0 <= i <= |callbacks|
        invariant notifications == old(notifications) + NotifyAll(callbacks[..i], progress, status)
        invariant cancelled == old(cancelled) && progress == old(progress) && status == old(status)
        invariant callbacks == old(callbacks)
      {
        notifications := notifications + [Notification(callbacks[i], progress, status)];
        i := i + 1;
        assert NotifyAll(callbacks[..i], progress, status)
            == NotifyAll(callbacks[..i - 1], progress, status) + [Notification(callbacks[i - 1], progress, status)];
      }
      assert callbacks[..i] == callbacks;
    }

    /** `update_progress`: once cancelled nothing happens; otherwise the
        progress is clamped to [0, 1], a non-empty status replaces the old one,
        and every callback is notified once. */
    method UpdateProgress(p: real, newStatus: Option<string>)
      modifies this
      ensures old(cancelled) ==>
        progress == old(progress) && status == old(status) && notifications == old(notifications)
      ensures !old(cancelled) ==>
        && progress == Clamp01(p)
        && status == (if Truthy(newStatus) then newStatus.value else old(status))
        && notifications == old(notifications) + NotifyAll(callbacks, progress, status)
      ensures cancelled == old(cancelled) && callbacks == old(callbacks)
    {
      if cancelled {
        return;
      }
      progress := Clamp01(p);
      if Truthy(newStatus) {
        status := newStatus.value;
      }
      Notify();
    }

    /** `cancel`: marks the operation cancelled, sets the status to
        "Cancelled" and notifies every callback. */
    method Cancel()
      modifies this
      ensures cancelled && status == CancelledStatus && progress == old(progress)
      ensures notifications == old(notifications) + NotifyAll(callbacks, progress, CancelledStatus)
      ensures callbacks == old(callbacks)
    {
      cancelled := true;
      status := CancelledStatus;
      Notify();
    }
  }

  // ---------------------------------------------------------------------------
  // AsyncCommand
  // ---------------------------------------------------------------------------

  /** What happens once the process is spawned; the pipe-reading loop itself is
      not modelled, its effect is given. */
  datatype ProcessRun =
    | Exited(returnCode: int, streamed: seq<string>, stdout: string, stderr: string)
    | CancelledWhileReading(streamed: seq<string>)
    | TimedOut(streamed: seq<string>)
    | SpawnFailed(message: string)

  datatype RunError = WasCancelled | TimedOutAfter(timeout: Option<real>) | CommandFailed(message: string)

  /** The dictionary `run` returns: a short failure, or the full report. */
  datatype RunResult =
    | Failure(error: RunError)
    | Report(success: bool, returnCode: int, output: seq<string>, errors: seq<string>, command: string)
  {
    predicate Succeeded() {
      Report? && success
    }
  }

  /** The lines `communicate` adds for a stream: none for empty text, else the
      stripped text split at newlines. */
  function RemainingLines(text: string): seq<string> {
    if text == "" then [] else Split(Strip(text), '\n')
  }

  class AsyncCommand {
    const command: seq<string>
    const timeout: Option<real>
    var cancelled: bool
    var processStarted: bool
    var terminateCalls: nat
    var killCalls: nat
    var outputLines: seq<string>
    var errorLines: seq<string>

    constructor (command: seq<string>, timeout: Option<real>)
      ensures this.command == command && this.timeout == timeout
      ensures !cancelled && !processStarted && terminateCalls == 0 && killCalls == 0
      ensures outputLines == [] && errorLines == []
    {
      this.command := command;
      this.timeout := timeout;
      cancelled := false;
      processStarted := false;
      terminateCalls := 0;
      killCalls := 0;
      outputLines := [];
      errorLines := [];
    }

    /** `cancel`: sets the flag and terminates the process if one was started. */
    method Cancel()
      modifies this
      ensures cancelled
      ensures terminateCalls == old(terminateCalls) + (if processStarted then 1 else 0)
      ensures processStarted == old(processStarted) && killCalls == old(killCalls)
      ensures outputLines == old(outputLines) && errorLines == old(errorLines)
    {
      cancelled := true;
      if processStarted {
        terminateCalls := terminateCalls + 1;
      }
    }

    /** `run`: fails at once, without spawning, when already cancelled;
        otherwise reports success exactly when the return code is 0. A run
        that ends by cancellation while reading saw `cancel` set the flag (and
        terminate the running process) before the loop terminates it again; a
        time-out kills the process. */
    method Run(proc: ProcessRun) returns (r: RunResult)
      requires proc.TimedOut? ==> timeout.Some?
      modifies this
      ensures old(cancelled) ==>
        && r == Failure(WasCancelled) && cancelled && processStarted == old(processStarted)
        && outputLines == old(outputLines) && errorLines == old(errorLines)
        && terminateCalls == old(terminateCalls) && killCalls == old(killCalls)
      ensures !old(cancelled) && proc.Exited? ==>
        && r == Report(proc.returnCode == 0, proc.returnCode, outputLines, errorLines, JoinAll(command, ' '))
        && outputLines == old(outputLines) + proc.streamed + RemainingLines(proc.stdout)
        && errorLines == old(errorLines) + RemainingLines(proc.stderr)
        && !cancelled && processStarted
        && terminateCalls == old(terminateCalls) && killCalls == old(killCalls)
      ensures !old(cancelled) && proc.CancelledWhileReading? ==>
        && r == Failure(WasCancelled) && cancelled && processStarted
        && outputLines == old(outputLines) + proc.streamed && errorLines == old(errorLines)
        && terminateCalls == old(terminateCalls) + 2 && killCalls == old(killCalls)
      ensures !old(cancelled) && proc.TimedOut? ==>
        && r == Failure(TimedOutAfter(timeout)) && !cancelled && processStarted
        && outputLines == old(outputLines) + proc.streamed && errorLines == old(errorLines)
        && terminateCalls == old(terminateCalls) && killCalls == old(killCalls) + 1
      ensures !old(cancelled) && proc.SpawnFailed? ==>
        && r == Failure(CommandFailed(proc.message)) && !cancelled && processStarted == old(processStarted)
        && outputLines == old(outputLines) && errorLines == old(errorLines)
        && terminateCalls == old(terminateCalls) && killCalls == old(killCalls)
      ensures r.Succeeded() <==> !old(cancelled) && proc.Exited? && proc.returnCode == 0
    {
      if cancelled {
        return Failure(WasCancelled);
      }
      if proc.SpawnFailed? {
        return Failure(CommandFailed(proc.message));
      }
      processStarted := true;
      outputLines := outputLines + proc.streamed;
      if proc.CancelledWhileReading? {
        Cancel();
        terminateCalls := terminateCalls + 1;
        r := Failure(WasCancelled);
      } else if proc.TimedOut? {
        killCalls := killCalls + 1;
        r := Failure(TimedOutAfter(timeout));
      } else {
        outputLines := outputLines + RemainingLines(proc.stdout);
        errorLines := errorLines + RemainingLines(proc.stderr);
        r := Report(proc.returnCode == 0, proc.returnCode, outputLines, errorLines, JoinAll(command, ' '));
      }
    }
  }
}
