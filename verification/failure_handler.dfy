/** PipelineFailureHandler: repeated failures are coalesced into one callback on a worker thread. */
module FailureHandler {
  type Tid = nat

  /** The fields guarded by the handler's mutex; `worker` says that worker_ is joinable. */
  datatype Handler = Handler(closed: bool, pending: bool, running: bool, worker: bool)

  predicate MaySchedule(h: Handler) {
    !h.closed && !h.pending && !h.running
  }

  function Scheduled(h: Handler): Handler {
    if MaySchedule(h) then h.(pending := true, worker := true) else h
  }

  function Cancelled(h: Handler): Handler {
    h.(pending := false)
  }

  function Closed(h: Handler): Handler {
    if h.closed then h else h.(closed := true, worker := false)
  }

  /** Where the worker thread is in run(); InCallback is the part that releases the mutex. */
  datatype WorkerPc = NotStarted | Waiting | Delaying | InCallback | Exited

  /** What the worker does when it holds the mutex at `pc`: one pass of the loop up to its next wait,
      given whether the delay has run out. With no delay it goes from Waiting straight to the callback. */
  function Worked(h: Handler, pc: WorkerPc, delayed: bool, expired: bool): (Handler, WorkerPc) {
    match pc
    case Waiting =>
      if h.closed then (h, Exited)
      else if !h.pending then (h, Waiting)
      else if delayed then (h, Delaying)
      else (h.(running := true), InCallback)
    case Delaying =>
      if h.closed then (h, Exited)
      else if !h.pending then (h, Waiting)
      else if expired then (h.(running := true), InCallback)
      else (h, Delaying)
    case InCallback => (h.(running := false, pending := false), Waiting)
    case _ => (h, pc)
  }

  class PipelineFailureHandler {
    var closed: bool
    var pending: bool
    var running: bool
    var worker: bool

    function Abs(): Handler
      reads this
    {
      Handler(closed, pending, running, worker)
    }

    constructor ()
      ensures Abs() == Handler(false, false, false, false)
    {
      closed, pending, running, worker := false, false, false, false;
    }

    method Schedule() returns (accepted: bool)
      modifies this
      ensures accepted == MaySchedule(old(Abs()))
      ensures Abs() == Scheduled(old(Abs()))
      ensures accepted <==> !old(closed) && !old(pending) && !old(running)
      ensures accepted ==> pending && worker && !closed && !running
      ensures !accepted ==> Abs() == old(Abs())
    {
      if closed || pending || running {
        return false;
      }
      if !worker {
        worker := true;
      }
      pending := true;
      accepted := true;
    }

    method CancelPending()
      modifies this
      ensures Abs() == Cancelled(old(Abs()))
      ensures !pending && closed == old(closed) && running == old(running) && worker == old(worker)
    {
      pending := false;
    }

    /** close() up to the join: `join` tells the caller that it owns a worker thread to join. */
    method Close() returns (first: bool, join: bool)
      modifies this
      ensures first == !old(closed) && join == (first && old(worker))
      ensures Abs() == Closed(old(Abs()))
      ensures closed && pending == old(pending) && running == old(running) && worker == (old(worker) && !first)
    {
      if closed {
        return false, false;
      }
      closed := true;
      first, join := true, worker;
      worker := false;
    }

    /** One pass of run() from the wait `pc` to the next place where the mutex is released. */
    method RunPass(pc: WorkerPc, delayed: bool, expired: bool) returns (next: WorkerPc)
      requires pc.Waiting? || pc.Delaying? || pc.InCallback?
      modifies this
      ensures (Abs(), next) == Worked(old(Abs()), pc, delayed, expired)
      ensures closed == old(closed) && worker == old(worker)
      ensures pc.InCallback? ==> next == Waiting && !running && !pending
      ensures !pc.InCallback? ==> pending == old(pending)
      ensures !pc.InCallback? ==> running == (next == InCallback || old(running))
      ensures !pc.InCallback? ==> (next == Exited <==> closed)
      ensures !pc.InCallback? ==> (next == Waiting <==> !closed && !pending)
      ensures pc.Waiting? ==> (next == Delaying <==> !closed && pending && delayed)
      ensures pc.Delaying? ==> (next == Delaying <==> !closed && pending && !expired)
      ensures next == InCallback <==>
                !pc.InCallback? && !closed && pending && (if pc.Waiting? then !delayed else expired)
    {
      if pc.InCallback? {
        running := false;
        pending := false;
        return Waiting;
      }
      if pc.Waiting? && !closed && !pending {
        return Waiting;
      }
      if closed {
        return Exited;
      }
      if !pending {
        return Waiting;
      }
      if pc.Waiting? && delayed {
        return Delaying;
      }
      if pc.Delaying? && !expired {
        return Delaying;
      }
      running := true;
      next := InCallback;
    }
  }

  // ---------------------------------------------------------------------------------------------
  // Threads and the ledger
  // ---------------------------------------------------------------------------------------------

  datatype Ledger = Ledger(accepted: nat, finished: nat, cancelled: nat, dropped: nat)

  /** joining: the threads inside close() that wait for the worker. */
  datatype Vars = Vars(delayed: bool, h: Handler, pc: WorkerPc, joining: set<Tid>, joined: bool, log: Ledger)

  datatype Step =
    | Schedule
    | Cancel
    | Close(t: Tid)
    | Join(t: Tid)
    | Work(expired: bool)

  /** A pending callback that has neither started nor been dropped by close(). */
  predicate Outstanding(h: Handler) {
    h.pending && !h.running && !h.closed
  }

  predicate Enabled(v: Vars, s: Step) {
    match s
    case Close(t) => t !in v.joining
    case Join(t) => t in v.joining && (v.pc.NotStarted? || v.pc.Exited?)
    case Work(_) => !v.pc.NotStarted? && !v.pc.Exited?
    case _ => true
  }

  function Apply(v: Vars, s: Step): Vars
    requires Enabled(v, s)
  {
    var l := v.log;
    match s
    case Schedule =>
      if !MaySchedule(v.h) then v
      else v.(h := Scheduled(v.h), pc := if v.pc.NotStarted? then Waiting else v.pc,
              log := l.(accepted := l.accepted + 1))
    case Cancel =>
      v.(h := Cancelled(v.h), log := if Outstanding(v.h) then l.(cancelled := l.cancelled + 1) else l)
    case Close(t) =>
      if v.h.closed then v
      else v.(h := Closed(v.h), joining := v.joining + {t},
              log := if Outstanding(v.h) then l.(dropped := l.dropped + 1) else l)
    case Join(t) =>
      v.(joining := v.joining - {t}, joined := true)
    case Work(expired) =>
      var (h, pc) := Worked(v.h, v.pc, v.delayed, expired);
      v.(h := h, pc := pc, log := if v.pc.InCallback? then l.(finished := l.finished + 1) else l)
  }

  function Init(delayed: bool): Vars {
    Vars(delayed, Handler(false, false, false, false), NotStarted, {}, false, Ledger(0, 0, 0, 0))
  }

  predicate Runs(v: Vars, steps: seq<Step>)
    decreases |steps|
  {
    steps == [] || (Enabled(v, steps[0]) && Runs(Apply(v, steps[0]), steps[1..]))
  }

  function Exec(v: Vars, steps: seq<Step>): Vars
    requires Runs(v, steps)
    decreases |steps|
  {
    if steps == [] then v else Exec(Apply(v, steps[0]), steps[1..])
  }

  function One(b: bool): nat {
    if b then 1 else 0
  }

  ghost predicate Inv(v: Vars) {
    && v.log.accepted == v.log.finished + v.log.cancelled + v.log.dropped + One(v.h.running) + One(Outstanding(v.h))
    && (v.h.running <==> v.pc.InCallback?)
    && (v.pc.NotStarted? ==> v.log.accepted == 0 && !v.h.pending)
    && (v.pc.Exited? ==> v.h.closed)
    && (v.joining != {} ==> v.h.closed)
    && (v.h.worker <==> !v.h.closed && !v.pc.NotStarted?)
    && (v.joined ==> v.h.closed && (v.pc.NotStarted? || v.pc.Exited?))
  }

  lemma StepKeepsInv(v: Vars, s: Step)
    requires Inv(v) && Enabled(v, s)
    ensures Inv(Apply(v, s))
    ensures v.joined ==> Apply(v, s).joined && Apply(v, s).log.finished == v.log.finished
  {
  }

  lemma {:induction false} RunKeepsInv(v: Vars, steps: seq<Step>)
    requires Inv(v) && Runs(v, steps)
    ensures Inv(Exec(v, steps))
    ensures v.joined ==> Exec(v, steps).joined && Exec(v, steps).log.finished == v.log.finished
    decreases |steps|
  {
    if steps != [] {
      StepKeepsInv(v, steps[0]);
      RunKeepsInv(Apply(v, steps[0]), steps[1..]);
    }
  }

  /** In every run, whatever schedules, cancels and closes interleave with the worker: each accepted
      schedule is finished, running, pending, cancelled or dropped by close(), and at most one of them
      is running or pending. */
  lemma SchedulesAreConserved(delayed: bool, steps: seq<Step>)
    requires Runs(Init(delayed), steps)
    ensures var v := Exec(Init(delayed), steps);
            && v.log.accepted
               == v.log.finished + v.log.cancelled + v.log.dropped + One(v.pc.InCallback?) + One(Outstanding(v.h))
            && !(v.pc.InCallback? && Outstanding(v.h))
  {
    RunKeepsInv(Init(delayed), steps);
  }

  /** Once the closing call has joined the worker, no callback runs and none will. */
  lemma NoCallbackAfterClose(delayed: bool, before: seq<Step>, t: Tid, after: seq<Step>)
    requires Runs(Init(delayed), before) && Enabled(Exec(Init(delayed), before), Join(t))
    requires Runs(Apply(Exec(Init(delayed), before), Join(t)), after)
    ensures var v := Exec(Init(delayed), before);
            var w := Exec(Apply(v, Join(t)), after);
            !w.pc.InCallback? && w.log.finished == v.log.finished
  {
    RunKeepsInv(Init(delayed), before);
    var v := Exec(Init(delayed), before);
    StepKeepsInv(v, Join(t));
    RunKeepsInv(Apply(v, Join(t)), after);
  }

  /** No run from here on finishes a callback. */
  ghost predicate FinishesNothing(v: Vars) {
    forall steps: seq<Step> :: Runs(v, steps) ==> Exec(v, steps).log.finished == v.log.finished
  }

  /** Inside close() with a worker to join that has not exited. */
  predicate MustWait(v: Vars, t: Tid) {
    t in v.joining && !Enabled(v, Join(t))
  }

  /** close() returns without waiting for a worker exactly if the handler is closed already or no worker was
      ever started. What the closing call promises, that no callback runs any more, holds after a later
      close() exactly if none is running by now. */
  lemma LaterCloseReturnsAtOnce(v: Vars, t: Tid)
    requires Inv(v) && Enabled(v, Close(t))
    ensures MustWait(Apply(v, Close(t)), t) <==> !(v.h.closed || v.pc.NotStarted?)
    ensures t !in Apply(v, Close(t)).joining <==> v.h.closed
    ensures v.h.closed ==> Apply(v, Close(t)) == v && (FinishesNothing(v) <==> !v.pc.InCallback?)
  {
    if v.h.closed && v.pc.InCallback? {
      var steps, none := [Work(true)], [];
      assert steps[1..] == none;
      assert Runs(Apply(v, steps[0]), none) && Exec(Apply(v, steps[0]), none) == Apply(v, steps[0]);
      assert Runs(v, steps) && Exec(v, steps).log.finished == v.log.finished + 1;
    }
    if v.h.closed && !v.pc.InCallback? {
      forall steps: seq<Step> | Runs(v, steps) ensures Exec(v, steps).log.finished == v.log.finished {
        ClosedHandlerStartsNothing(v, steps);
      }
    }
  }

  lemma {:induction false} ClosedHandlerStartsNothing(v: Vars, steps: seq<Step>)
    requires Inv(v) && v.h.closed && !v.pc.InCallback? && Runs(v, steps)
    ensures Exec(v, steps).log.finished == v.log.finished
    decreases |steps|
  {
    if steps != [] {
      StepKeepsInv(v, steps[0]);
      ClosedHandlerStartsNothing(Apply(v, steps[0]), steps[1..]);
    }
  }

  /** A second close() returns while the callback runs that the first one waits for. */
  lemma SecondCloseReturnsFirst()
    ensures exists steps: seq<Step> ::
              && Runs(Init(false), steps)
              && Exec(Init(false), steps).pc.InCallback?
              && Exec(Init(false), steps).joining == {1}
              && steps[|steps| - 1] == Close(2)
  {
    var steps := [Schedule, Work(true), Close(1), Close(2)];
    var v1 := Apply(Init(false), Schedule);
    var v2 := Apply(v1, Work(true));
    var v3 := Apply(v2, Close(1));
    var v4 := Apply(v3, Close(2));
    assert v2.pc.InCallback? && v3.joining == {1} && v4 == v3;
    assert steps[1..] == [Work(true), Close(1), Close(2)];
    assert steps[1..][1..] == [Close(1), Close(2)] && steps[1..][1..][1..] == [Close(2)];
    assert Runs(v3, [Close(2)]) && Exec(v3, [Close(2)]) == v4;
    assert Runs(v2, [Close(1), Close(2)]) && Exec(v2, [Close(1), Close(2)]) == v4;
    assert Runs(v1, steps[1..]) && Exec(v1, steps[1..]) == v4;
  }

  predicate OnlyWork(steps: seq<Step>) {
    forall i :: 0 <= i < |steps| ==> steps[i].Work?
  }

  /** An outstanding failure is not forgotten: with or without a delay, the worker alone comes to run its
      callback and finishes it. */
  lemma OutstandingFailureIsHandled(v: Vars) returns (steps: seq<Step>)
    requires Inv(v) && Outstanding(v.h)
    ensures OnlyWork(steps) && Runs(v, steps)
    ensures Exec(v, steps).log.finished == v.log.finished + 1 && !Exec(v, steps).h.pending
  {
    var s := Work(true);
    var v1 := Apply(v, s);
    var v2 := Apply(v1, s);
    assert [s][1..] == [] && [s, s][1..] == [s] && [s, s, s][1..] == [s, s];
    if v2.log.finished == v.log.finished + 1 {
      steps := [s, s];
      assert Runs(v2, []) && Exec(v2, []) == v2;
      assert Runs(v1, [s]) && Exec(v1, [s]) == v2;
    } else {
      steps := [s, s, s];
      var v3 := Apply(v2, s);
      assert Runs(v3, []) && Exec(v3, []) == v3;
      assert Runs(v2, [s]) && Exec(v2, [s]) == v3;
      assert Runs(v1, [s, s]) && Exec(v1, [s, s]) == v3;
    }
  }
}
