/** The audio GStreamerStream: start(), close() and the restart that the failure handler's worker runs,
    against callbacks that report failures.

    start() and the restart hold mutex_ while they stop and start the pipeline. close() raises the
    shutdown flag under mutex_ and then, without it, closes the handler, joins the worker and stops the
    pipeline. Callbacks take no lock of the stream; what they take beside it, TrackPublisher::mutex_, they
    are assumed to get and give back. The pipeline is its stop bit and the callbacks that
    are counted inside; AudioPipeline has the word behind them. */
module AudioStream {
  import opened Wrappers
  import FH = FailureHandler

  type Tid = nat
  type OpId = nat

  // ---------------------------------------------------------------------------------------------
  // What is done to the pipeline while mutex_ is held
  // ---------------------------------------------------------------------------------------------

  datatype Pipeline = Pipeline(active: bool, stopped: bool, inside: set<OpId>)

  /** start() and restartPipelineAfterFailure() with mutex_ held. Flagging and Spinning are stop(); it
      is followed by a launch (`again`), or undoes a launch that failed to play. */
  datatype Job = Checking | Flagging(again: bool) | Spinning(again: bool) | Launching

  datatype Outcome = NotBuilt | FailsToPlay | Plays

  predicate JobEnabled(p: Pipeline, job: Job) {
    job.Spinning? ==> p.inside == {}
  }

  /** The next state of the pipeline, and what is left of the job. */
  function JobStep(shutdown: bool, p: Pipeline, job: Job, outcome: Outcome): (Pipeline, Option<Job>)
    requires JobEnabled(p, job)
  {
    match job
    case Checking =>
      if shutdown then (p, None) else if p.active then (p, Some(Flagging(true))) else (p, Some(Launching))
    case Flagging(again) => (p.(stopped := true), Some(Spinning(again)))
    case Spinning(again) => (p.(active := false), if again then Some(Launching) else None)
    case Launching =>
      match outcome
      case NotBuilt => (p.(stopped := false), None)
      case FailsToPlay => (p.(stopped := false, active := true), Some(Flagging(false)))
      case Plays => (p.(stopped := false, active := true), None)
  }

  // ---------------------------------------------------------------------------------------------
  // Threads
  // ---------------------------------------------------------------------------------------------

  datatype UserPc =
    | Free
    | StartLock
    | StartJob(job: Job)
    | CloseLock
    | CloseHeld
    | ClosingHandler
    | Joining
    | StopFlag
    | StopSpin

  /** InCallback of the handler's worker is NeedsLock, Restart or Returning here. */
  datatype WorkerPc = NotStarted | Waiting | Delaying | NeedsLock | Restart(job: Job) | Returning | Exited

  datatype CallbackPc = Entered | Reporting | Leaving

  datatype Actor = User(t: Tid) | Worker

  /** closer: the thread whose close() raised the flag; closed: that call has returned. */
  datatype Vars = Vars(
    shutdown: bool,
    mutex: Option<Actor>,
    h: FH.Handler,
    p: Pipeline,
    users: map<Tid, UserPc>,
    worker: WorkerPc,
    callbacks: map<OpId, CallbackPc>,
    closer: Option<Tid>,
    closed: bool)

  function Pc(v: Vars, t: Tid): UserPc {
    if t in v.users then v.users[t] else Free
  }

  function At(v: Vars, t: Tid, pc: UserPc): Vars {
    v.(users := v.users[t := pc])
  }

  datatype Step =
    | CallStart(t: Tid)
    | CallClose(t: Tid)
    | Lock(t: Tid)
    | Work(t: Tid, outcome: Outcome)
    | Close(t: Tid)
    | Wake(expired: bool)
    | WorkerLock
    | WorkerWork(outcome: Outcome)
    | WorkerReturn
    | Enter(o: OpId)
    | Report(o: OpId)
    | Leave(o: OpId)

  predicate IsUser(s: Step) {
    s.CallStart? || s.CallClose? || s.Lock? || s.Work?
  }

  predicate IsWorker(s: Step) {
    s.Wake? || s.WorkerLock? || s.WorkerWork? || s.WorkerReturn?
  }

  predicate IsCallback(s: Step) {
    s.Enter? || s.Report? || s.Leave?
  }

  /** The steps of close() after the flag: waits for the worker to exit, then for the callbacks. */
  predicate CloseEnabled(v: Vars, pc: UserPc) {
    match pc
    case CloseHeld => true
    case ClosingHandler => true
    case Joining => v.worker.NotStarted? || v.worker.Exited?
    case StopFlag => true
    case StopSpin => v.p.inside == {}
    case _ => false
  }

  predicate Enabled(v: Vars, s: Step) {
    match s
    case CallStart(t) => Pc(v, t).Free?
    case CallClose(t) => Pc(v, t).Free?
    case Lock(t) => (Pc(v, t).StartLock? || Pc(v, t).CloseLock?) && v.mutex.None?
    case Work(t, _) => Pc(v, t).StartJob? && JobEnabled(v.p, Pc(v, t).job)
    case Close(t) => CloseEnabled(v, Pc(v, t))
    case Wake(_) => v.worker.Waiting? || v.worker.Delaying?
    case WorkerLock => v.worker.NeedsLock? && v.mutex.None?
    case WorkerWork(_) => v.worker.Restart? && JobEnabled(v.p, v.worker.job)
    case WorkerReturn => v.worker.Returning?
    case Enter(o) => o !in v.callbacks && !v.p.stopped
    case Report(o) => o in v.callbacks && !v.callbacks[o].Leaving?
    case Leave(o) => o in v.callbacks
  }

  function ApplyUser(v: Vars, s: Step): Vars
    requires IsUser(s) && Enabled(v, s)
  {
    match s
    case CallStart(t) => At(v, t, StartLock)
    case CallClose(t) => At(v, t, CloseLock)
    case Lock(t) =>
      At(v.(mutex := Some(User(t))), t, if Pc(v, t).StartLock? then StartJob(Checking) else CloseHeld)
    case Work(t, outcome) =>
      var (p, rest) := JobStep(v.shutdown, v.p, Pc(v, t).job, outcome);
      if rest.Some? then At(v.(p := p), t, StartJob(rest.value)) else At(v.(p := p, mutex := None), t, Free)
  }

  /** A second close() returns at once; the first one sees its own shutdown through. */
  function ApplyClose(v: Vars, t: Tid): Vars
    requires CloseEnabled(v, Pc(v, t))
  {
    match Pc(v, t)
    case CloseHeld =>
      if v.shutdown then At(v.(mutex := None), t, Free)
      else At(v.(mutex := None, shutdown := true, closer := Some(t)), t, ClosingHandler)
    case ClosingHandler => At(v.(h := FH.Closed(v.h)), t, Joining)
    case Joining => if v.p.active then At(v, t, StopFlag) else At(v.(closed := true), t, Free)
    case StopFlag => At(v.(p := v.p.(stopped := true)), t, StopSpin)
    case StopSpin => At(v.(p := v.p.(active := false), closed := true), t, Free)
  }

  /** The handler's worker between two waits, as FailureHandler.Worked has it. */
  function ApplyWorker(v: Vars, s: Step): Vars
    requires IsWorker(s) && Enabled(v, s)
  {
    match s
    case Wake(expired) =>
      var pc := if v.worker.Waiting? then FH.Waiting else FH.Delaying;
      var (h, next) := FH.Worked(v.h, pc, true, expired);
      v.(h := h, worker := match next
                           case Waiting => Waiting
                           case Delaying => Delaying
                           case InCallback => NeedsLock
                           case _ => Exited)
    case WorkerLock => v.(mutex := Some(Worker), worker := Restart(Checking))
    case WorkerWork(outcome) =>
      var (p, rest) := JobStep(v.shutdown, v.p, v.worker.job, outcome);
      if rest.Some? then v.(p := p, worker := Restart(rest.value))
      else v.(p := p, mutex := None, worker := Returning)
    case WorkerReturn =>
      v.(h := FH.Worked(v.h, FH.InCallback, true, true).0, worker := Waiting)
  }

  /** onPipelineFailure() loads the shutdown flag and then schedules; neither step waits. */
  function ApplyCallback(v: Vars, s: Step): Vars
    requires IsCallback(s) && Enabled(v, s)
  {
    match s
    case Enter(o) => v.(callbacks := v.callbacks[o := Entered], p := v.p.(inside := v.p.inside + {o}))
    case Report(o) =>
      if v.callbacks[o].Entered? then v.(callbacks := v.callbacks[o := if v.shutdown then Leaving else Reporting])
      else v.(callbacks := v.callbacks[o := Leaving], h := FH.Scheduled(v.h),
              worker := if FH.MaySchedule(v.h) && v.worker.NotStarted? then Waiting else v.worker)
    case Leave(o) => v.(callbacks := v.callbacks - {o}, p := v.p.(inside := v.p.inside - {o}))
  }

  function Apply(v: Vars, s: Step): Vars
    requires Enabled(v, s)
  {
    if IsUser(s) then ApplyUser(v, s)
    else if s.Close? then ApplyClose(v, s.t)
    else if IsWorker(s) then ApplyWorker(v, s)
    else ApplyCallback(v, s)
  }

  const INIT := Vars(false, None, FH.Handler(false, false, false, false), Pipeline(false, false, {}),
                     map[], NotStarted, map[], None, false)

  predicate Runs(v: Vars, steps: seq<Step>)
    decreases |steps|
  {
    steps == [] || (Enabled(v, steps[0]) && Runs(Apply(v, steps[0]), steps[1..]))
  }

  function Exec(v: Vars, steps: seq<Step>): Vars
    requires Runs(v, steps)
    decreases |steps|
  {
    if steps == [] then v else Exec(Apply(v, steps[0]), steps[1..])
  }

  // ---------------------------------------------------------------------------------------------
  // The invariant
  // ---------------------------------------------------------------------------------------------

  predicate Holds(pc: UserPc) {
    pc.StartJob? || pc.CloseHeld?
  }

  predicate PastFlag(pc: UserPc) {
    pc.ClosingHandler? || pc.Joining? || pc.StopFlag? || pc.StopSpin?
  }

  /** mutex_ is held by exactly the thread whose position says so, which is not waiting to lock it; a
      counted callback is one that has entered. */
  ghost predicate MutexInv(v: Vars) {
    && (forall t: Tid :: Holds(Pc(v, t)) <==> v.mutex == Some(User(t)))
    && (v.worker.Restart? <==> v.mutex == Some(Worker))
    && v.callbacks.Keys == v.p.inside
  }

  /** Once the flag is up, whoever gets mutex_ gives it back: no job goes past its check. */
  ghost predicate ShutdownInv(v: Vars) {
    && (v.shutdown <==> v.closer.Some?)
    && (forall t: Tid :: PastFlag(Pc(v, t)) ==> v.closer == Some(t))
    && (v.shutdown ==> forall t: Tid :: Pc(v, t).StartJob? ==> Pc(v, t).job.Checking?)
    && (v.shutdown && v.worker.Restart? ==> v.worker.job.Checking?)
    && (forall t: Tid :: Pc(v, t).StopFlag? || Pc(v, t).StopSpin? ==> !v.closed)
  }

  /** How far the closing call is: the handler is closed from Joining on, the worker is gone after it,
      and the pipeline is inactive when the call returns. The handler is running while its worker is in the
      callback. */
  ghost predicate CloserInv(v: Vars) {
    && (forall t: Tid :: Pc(v, t).Joining? || Pc(v, t).StopFlag? || Pc(v, t).StopSpin? ==> v.h.closed)
    && (forall t: Tid :: Pc(v, t).StopFlag? || Pc(v, t).StopSpin? ==> v.worker.NotStarted? || v.worker.Exited?)
    && (v.closed ==> v.shutdown && v.h.closed && !v.p.active && (v.worker.NotStarted? || v.worker.Exited?))
    && (v.worker.NotStarted? ==> !v.h.pending)
    && (v.worker.Exited? ==> v.h.closed)
    && (v.h.running <==> v.worker.NeedsLock? || v.worker.Restart? || v.worker.Returning?)
  }

  ghost predicate Inv(v: Vars) {
    MutexInv(v) && ShutdownInv(v) && CloserInv(v)
  }

  lemma UserKeeps(v: Vars, s: Step)
    requires Inv(v) && IsUser(s) && Enabled(v, s)
    ensures Inv(ApplyUser(v, s))
  {
  }

  lemma WorkerKeeps(v: Vars, s: Step)
    requires Inv(v) && IsWorker(s) && Enabled(v, s)
    ensures Inv(ApplyWorker(v, s))
  {
  }

  lemma CallbackKeeps(v: Vars, s: Step)
    requires Inv(v) && IsCallback(s) && Enabled(v, s)
    ensures Inv(ApplyCallback(v, s))
  {
  }

  lemma CloseKeeps(v: Vars, t: Tid)
    requires Inv(v) && CloseEnabled(v, Pc(v, t))
    ensures Inv(ApplyClose(v, t))
  {
  }

  lemma StepKeepsInv(v: Vars, s: Step)
    requires Inv(v) && Enabled(v, s)
    ensures Inv(Apply(v, s))
    ensures v.closed ==> Apply(v, s).closed
  {
    if IsUser(s) {
      UserKeeps(v, s);
    } else if s.Close? {
      CloseKeeps(v, s.t);
    } else if IsWorker(s) {
      WorkerKeeps(v, s);
    } else {
      CallbackKeeps(v, s);
    }
  }

  lemma {:induction false} RunKeepsInv(v: Vars, steps: seq<Step>)
    requires Inv(v) && Runs(v, steps)
    ensures Inv(Exec(v, steps))
    ensures v.closed ==> Exec(v, steps).closed
    decreases |steps|
  {
    if steps != [] {
      StepKeepsInv(v, steps[0]);
      RunKeepsInv(Apply(v, steps[0]), steps[1..]);
    }
  }

  // ---------------------------------------------------------------------------------------------
  // What holds in every run
  // ---------------------------------------------------------------------------------------------

  /** Once the closing call has returned the pipeline is inactive, whatever happens afterwards, and the
      worker will not restart it. */
  lemma InactiveForeverAfterClose(before: seq<Step>, after: seq<Step>)
    requires Runs(INIT, before) && Exec(INIT, before).closed && Runs(Exec(INIT, before), after)
    ensures var v := Exec(Exec(INIT, before), after);
            !v.p.active && (v.worker.NotStarted? || v.worker.Exited?)
  {
    RunKeepsInv(INIT, before);
    RunKeepsInv(Exec(INIT, before), after);
  }

  /** Who waits for whom, in every run: a callback waits for no lock of the stream; whoever holds mutex_ can
      go on, or waits for callbacks only; the thread that joins the worker does not hold mutex_. */
  lemma NobodyWaitsForAHolder(steps: seq<Step>)
    requires Runs(INIT, steps)
    ensures var v := Exec(INIT, steps);
            && (forall o: OpId :: o in v.p.inside ==> Enabled(v, Leave(o)))
            && (forall t: Tid, outcome: Outcome :: v.mutex == Some(User(t)) ==>
                  Enabled(v, Work(t, outcome)) || Enabled(v, Close(t)) || v.p.inside != {})
            && (forall outcome: Outcome :: v.mutex == Some(Worker) ==>
                  Enabled(v, WorkerWork(outcome)) || v.p.inside != {})
            && (forall t: Tid :: Pc(v, t).Joining? || Pc(v, t).StopSpin? ==> v.mutex != Some(User(t)))
  {
    RunKeepsInv(INIT, steps);
    var v := Exec(INIT, steps);
    assert forall t: Tid :: v.mutex == Some(User(t)) ==> Holds(Pc(v, t));
  }

  lemma {:induction false} ShutdownNeverActivates(v: Vars, steps: seq<Step>)
    requires Inv(v) && v.shutdown && !v.p.active && Runs(v, steps)
    ensures !Exec(v, steps).p.active
    decreases |steps|
  {
    if steps != [] {
      StepKeepsInv(v, steps[0]);
      ShutdownNeverActivates(Apply(v, steps[0]), steps[1..]);
    }
  }

  ghost predicate InactiveForGood(v: Vars) {
    forall steps: seq<Step> :: Runs(v, steps) ==> !Exec(v, steps).p.active
  }

  /** A close() that gets the mutex returns at once exactly if the stream is shut down already. What the
      closing call promises, an inactive pipeline for good, then holds exactly if the pipeline is inactive
      by now. */
  lemma LaterCloseReturnsAtOnce(v: Vars, t: Tid)
    requires Inv(v) && Pc(v, t).CloseHeld?
    ensures Pc(Apply(v, Close(t)), t).Free? <==> v.shutdown
    ensures v.shutdown ==> (InactiveForGood(Apply(v, Close(t))) <==> !v.p.active)
  {
    var w := Apply(v, Close(t));
    StepKeepsInv(v, Close(t));
    var none: seq<Step> := [];
    assert Runs(w, none) && Exec(w, none) == w;
    assert v.shutdown ==> w.p == v.p && w.shutdown;
    if v.shutdown && !v.p.active {
      forall steps: seq<Step> | Runs(w, steps) ensures !Exec(w, steps).p.active {
        ShutdownNeverActivates(w, steps);
      }
    } else if v.shutdown {
      assert Exec(w, none).p.active;
    }
  }

  lemma {:induction false} Extend(init: Vars, steps: seq<Step>, v: Vars, s: Step) returns (more: seq<Step>, w: Vars)
    requires Runs(init, steps) && Exec(init, steps) == v && Enabled(v, s)
    ensures more == steps + [s] && Runs(init, more) && w == Exec(init, more) == Apply(v, s)
    decreases |steps|
  {
    more, w := steps + [s], Apply(v, s);
    if steps == [] {
      assert Exec(w, []) == w;
    } else {
      var rest, _ := Extend(Apply(init, steps[0]), steps[1..], v, s);
      assert more[1..] == rest;
    }
  }

  lemma PipelinePlays() returns (steps: seq<Step>, v: Vars)
    ensures Runs(INIT, steps) && v == Exec(INIT, steps)
    ensures v == INIT.(p := Pipeline(true, false, {}), users := map[0 := Free])
  {
    steps, v := Extend(INIT, [], INIT, CallStart(0));
    steps, v := Extend(INIT, steps, v, Lock(0));
    steps, v := Extend(INIT, steps, v, Work(0, Plays));
    steps, v := Extend(INIT, steps, v, Work(0, Plays));
  }

  /** A second close() returns while the pipeline still plays. */
  lemma SecondCloseReturnsFirst()
    ensures exists steps: seq<Step> ::
              && Runs(INIT, steps)
              && var v := Exec(INIT, steps);
                 && v.p.active && !v.p.stopped && Pc(v, 1).ClosingHandler? && Pc(v, 2).Free?
                 && steps[|steps| - 1] == Close(2)
  {
    var steps, v := PipelinePlays();
    steps, v := Extend(INIT, steps, v, CallClose(1));
    steps, v := Extend(INIT, steps, v, Lock(1));
    steps, v := Extend(INIT, steps, v, Close(1));
    assert v.shutdown && Pc(v, 1).ClosingHandler? && Pc(v, 2).Free? && v.mutex == None;
    steps, v := Extend(INIT, steps, v, CallClose(2));
    steps, v := Extend(INIT, steps, v, Lock(2));
    steps, v := Extend(INIT, steps, v, Close(2));
  }

  // ---------------------------------------------------------------------------------------------
  // Every call can be completed
  // ---------------------------------------------------------------------------------------------

  function JobWeight(job: Job): nat {
    match job
    case Checking => 6
    case Flagging(again) => if again then 5 else 2
    case Spinning(again) => if again then 4 else 1
    case Launching => 3
  }

  function UserWeight(pc: UserPc): nat {
    match pc
    case Free => 0
    case StartJob(job) => JobWeight(job)
    case StartLock => 7
    case CloseLock => 6
    case CloseHeld => 5
    case ClosingHandler => 4
    case Joining => 3
    case StopFlag => 2
    case StopSpin => 1
  }

  function WorkerWeight(pc: WorkerPc): nat {
    match pc
    case NotStarted => 0
    case Exited => 0
    case Waiting => 1
    case Delaying => 1
    case Returning => 2
    case Restart(job) => 2 + JobWeight(job)
    case NeedsLock => 9
  }

  function HolderWeight(v: Vars): nat {
    match v.mutex
    case Some(User(u)) => UserWeight(Pc(v, u))
    case _ => 0
  }

  /** w is closer than v to the end of t's call. */
  predicate Closer(w: Vars, v: Vars, t: Tid) {
    var (a, b, c) := (UserWeight(Pc(w, t)), WorkerWeight(w.worker), HolderWeight(w));
    var (d, e, f) := (UserWeight(Pc(v, t)), WorkerWeight(v.worker), HolderWeight(v));
    a < d || (a == d && (b < e || (b == e && (c < f || (c == f && |w.p.inside| < |v.p.inside|)))))
  }

  lemma LetACallbackLeave(v: Vars, t: Tid) returns (s: Step)
    requires Inv(v) && v.p.inside != {}
    ensures s.Leave? && Enabled(v, s) && Closer(Apply(v, s), v, t)
  {
    var o :| o in v.p.inside;
    s := Leave(o);
  }

  lemma LetAUserWork(v: Vars, t: Tid, u: Tid) returns (s: Step)
    requires Inv(v) && v.mutex == Some(User(u)) && u != t
    ensures Enabled(v, s) && Closer(Apply(v, s), v, t)
    ensures Pc(Apply(v, s), t) == Pc(v, t) && Apply(v, s).worker == v.worker
    ensures !s.CallStart? && !s.CallClose? && !s.Enter?
  {
    assert Holds(Pc(v, u));
    if Pc(v, u).CloseHeld? {
      s := Close(u);
    } else if JobEnabled(v.p, Pc(v, u).job) {
      s := Work(u, NotBuilt);
    } else {
      s := LetACallbackLeave(v, t);
    }
  }

  /** t waits for mutex_, or for a worker that does: the holder goes on. */
  lemma LetTheHolderWork(v: Vars, t: Tid) returns (s: Step)
    requires Inv(v) && v.mutex.Some? && v.mutex != Some(User(t))
    ensures Enabled(v, s) && Closer(Apply(v, s), v, t)
    ensures !s.CallStart? && !s.CallClose? && !s.Enter?
  {
    match v.mutex.value
    case User(u) => s := LetAUserWork(v, t, u);
    case Worker =>
      if JobEnabled(v.p, v.worker.job) {
        s := WorkerWork(NotBuilt);
      } else {
        s := LetACallbackLeave(v, t);
      }
  }

  lemma LetTheWorkerExit(v: Vars, t: Tid) returns (s: Step)
    requires Inv(v) && Pc(v, t).Joining? && !Enabled(v, Close(t))
    ensures Enabled(v, s) && Closer(Apply(v, s), v, t)
    ensures !s.CallStart? && !s.CallClose? && !s.Enter?
  {
    assert !Holds(Pc(v, t));
    if v.worker.Waiting? || v.worker.Delaying? {
      s := Wake(true);
    } else if v.worker.Returning? {
      s := WorkerReturn;
    } else if v.mutex.None? {
      s := WorkerLock;
    } else {
      s := LetTheHolderWork(v, t);
    }
  }

  lemma Advance(v: Vars, t: Tid) returns (s: Step)
    requires Inv(v) && !Pc(v, t).Free?
    ensures Enabled(v, s) && Closer(Apply(v, s), v, t)
    ensures !s.CallStart? && !s.CallClose? && !s.Enter?
  {
    var pc := Pc(v, t);
    if pc.StartLock? || pc.CloseLock? {
      assert !Holds(pc);
      if v.mutex.None? {
        s := Lock(t);
      } else {
        s := LetTheHolderWork(v, t);
      }
    } else if pc.StartJob? {
      if JobEnabled(v.p, pc.job) {
        s := Work(t, NotBuilt);
      } else {
        s := LetACallbackLeave(v, t);
      }
    } else if CloseEnabled(v, pc) {
      s := Close(t);
    } else if pc.Joining? {
      s := LetTheWorkerExit(v, t);
    } else {
      s := LetACallbackLeave(v, t);
    }
  }

  /** No reachable state is a deadlock for a call in progress: from every one of them some run completes
      it, without any new call or callback. */
  lemma {:induction false} CallCanComplete(v: Vars, t: Tid) returns (steps: seq<Step>)
    requires Inv(v)
    ensures Runs(v, steps) && Pc(Exec(v, steps), t).Free?
    ensures forall i :: 0 <= i < |steps| ==> !steps[i].CallStart? && !steps[i].CallClose? && !steps[i].Enter?
    decreases UserWeight(Pc(v, t)), WorkerWeight(v.worker), HolderWeight(v), |v.p.inside|
  {
    steps := [];
    if !Pc(v, t).Free? {
      var s := Advance(v, t);
      StepKeepsInv(v, s);
      var rest := CallCanComplete(Apply(v, s), t);
      steps := [s] + rest;
      assert steps[1..] == rest;
    }
  }

  lemma NoDeadlock(before: seq<Step>, t: Tid)
    requires Runs(INIT, before)
    ensures exists after: seq<Step> ::
              && Runs(Exec(INIT, before), after)
              && Pc(Exec(Exec(INIT, before), after), t).Free?
  {
    RunKeepsInv(INIT, before);
    var after := CallCanComplete(Exec(INIT, before), t);
  }

  // ---------------------------------------------------------------------------------------------
  // A failure is answered by a restart
  // ---------------------------------------------------------------------------------------------

  predicate NothingNew(steps: seq<Step>) {
    forall i :: 0 <= i < |steps| ==> !steps[i].CallStart? && !steps[i].CallClose? && !steps[i].Enter?
  }

  /** A callback that reports a failure while the handler can take it leaves a failure to be handled. */
  lemma ReportIsScheduled(v: Vars, o: OpId)
    requires Inv(v) && Enabled(v, Report(o)) && v.callbacks[o].Reporting?
    ensures FH.Outstanding(Apply(v, Report(o)).h) <==> !v.h.closed && !v.h.running
    ensures v.h.closed || v.h.running ==> Apply(v, Report(o)).h == v.h
  {
  }

  lemma {:induction false} WorkerGetsTheMutex(v: Vars) returns (steps: seq<Step>)
    requires Inv(v) && v.worker.NeedsLock?
    ensures Runs(v, steps) && NothingNew(steps)
    ensures Exec(v, steps).worker == Restart(Checking)
    decreases HolderWeight(v), |v.p.inside|
  {
    if v.mutex.None? {
      steps := [WorkerLock];
      var w, none: seq<Step> := Apply(v, WorkerLock), [];
      assert steps[1..] == none && Runs(w, none) && Exec(w, none) == w;
    } else {
      assert v.mutex != Some(Worker);
      var u := v.mutex.value.t;
      var s := LetAUserWork(v, u + 1, u);
      StepKeepsInv(v, s);
      var rest := WorkerGetsTheMutex(Apply(v, s));
      steps := [s] + rest;
      assert steps[1..] == rest;
    }
  }

  /** From every reachable state with a failure to be handled some run gets to the restart with mutex_
      held, whatever call or callback is under way: the delay runs out, and whoever holds mutex_ lets go. */
  lemma {:induction false} FailureReachesTheRestart(v: Vars) returns (steps: seq<Step>)
    requires Inv(v) && FH.Outstanding(v.h)
    ensures Runs(v, steps) && NothingNew(steps)
    ensures Exec(v, steps).worker == Restart(Checking) && Exec(v, steps).mutex == Some(Worker)
    decreases v.worker.Waiting?
  {
    var s := Wake(true);
    var w := Apply(v, s);
    StepKeepsInv(v, s);
    var rest;
    if v.worker.Waiting? {
      rest := FailureReachesTheRestart(w);
    } else {
      rest := WorkerGetsTheMutex(w);
    }
    steps := [s] + rest;
    assert steps[1..] == rest;
    RunKeepsInv(v, steps);
  }

  predicate BeforeLaunch(job: Job) {
    job.Checking? || job.Launching? || job.again
  }

  /** A restart of a stream that is not shut down can end with the pipeline playing, after nothing but its
      own steps and callbacks that leave. */
  lemma {:induction false} RestartCanPlay(v: Vars) returns (steps: seq<Step>)
    requires Inv(v) && !v.shutdown && v.worker.Restart? && BeforeLaunch(v.worker.job)
    ensures Runs(v, steps) && forall i :: 0 <= i < |steps| ==> steps[i].WorkerWork? || steps[i].Leave?
    ensures var w := Exec(v, steps);
            w.p.active && !w.p.stopped && w.mutex.None? && w.worker.Returning?
    decreases JobWeight(v.worker.job), |v.p.inside|
  {
    var s := WorkerWork(Plays);
    if !Enabled(v, s) {
      s := LetACallbackLeave(v, 0);
    }
    var w := Apply(v, s);
    StepKeepsInv(v, s);
    var rest: seq<Step> := [];
    if w.worker.Restart? {
      rest := RestartCanPlay(w);
    }
    steps := [s] + rest;
    assert steps[1..] == rest;
  }

  // ---------------------------------------------------------------------------------------------
  // The stream's own methods
  // ---------------------------------------------------------------------------------------------

  /** A whole job without anybody else's steps, but that the callbacks inside leave while it spins for them. */
  function RunJob(shutdown: bool, p: Pipeline, job: Job, outcome: Outcome): Pipeline
    decreases JobWeight(job)
  {
    var (q, rest) := JobStep(shutdown, if job.Spinning? then p.(inside := {}) else p, job, outcome);
    if rest.None? then q else RunJob(shutdown, q, rest.value, outcome)
  }

  /** A start or a restart leaves a playing pipeline iff it gets as far as playing; one that fails to play
      is stopped again; if something was stopped no callback is left inside. Once the stream is shut down
      nothing happens. */
  lemma JobsLeaveNoHalfStartedPipeline(shutdown: bool, p: Pipeline, outcome: Outcome)
    ensures RunJob(shutdown, p, Checking, outcome)
            == if shutdown then p
               else
                 var inside := if p.active || outcome.FailsToPlay? then {} else p.inside;
                 Pipeline(outcome.Plays?, outcome.FailsToPlay?, inside)
  {
    if !shutdown {
      var again := if p.active then Flagging(true) else Launching;
      assert RunJob(shutdown, p, Checking, outcome) == RunJob(shutdown, p, again, outcome);
      var q := Pipeline(false, p.active || p.stopped, if p.active then {} else p.inside);
      if p.active {
        assert RunJob(shutdown, p, again, outcome)
            == RunJob(shutdown, p.(stopped := true), Spinning(true), outcome)
            == RunJob(shutdown, q, Launching, outcome);
      }
      if outcome.FailsToPlay? {
        var r := Pipeline(true, false, q.inside);
        assert RunJob(shutdown, r, Flagging(false), outcome)
            == RunJob(shutdown, r.(stopped := true), Spinning(false), outcome);
      }
    }
  }

  class GStreamerStream {
    var isShutdown: bool
    var handler: FH.Handler
    var pipeline: Pipeline

    constructor ()
      ensures !isShutdown && handler == INIT.h && pipeline == INIT.p
    {
      isShutdown, handler, pipeline := false, FH.Handler(false, false, false, false), Pipeline(false, false, {});
    }

    /** With the stop bit set no callback enters, and each one inside leaves in its own time. */
    method StopPipeline()
      modifies this`pipeline
      ensures pipeline == if old(pipeline).active then Pipeline(false, true, {}) else old(pipeline)
    {
      if !pipeline.active {
        return;
      }
      pipeline := pipeline.(stopped := true);
      while pipeline.inside != {}
        invariant pipeline.active && pipeline.stopped
        decreases |pipeline.inside|
      {
        var o: OpId :| o in pipeline.inside;
        pipeline := pipeline.(inside := pipeline.inside - {o});
      }
      pipeline := pipeline.(active := false);
    }

    method StartPipelineLocked(outcome: Outcome) returns (ok: bool)
      modifies this`pipeline
      ensures pipeline == RunJob(false, old(pipeline), Checking, outcome)
      ensures ok == outcome.Plays?
    {
      JobsLeaveNoHalfStartedPipeline(false, pipeline, outcome);
      StopPipeline();
      pipeline := pipeline.(stopped := false);
      if outcome.NotBuilt? {
        return false;
      }
      pipeline := pipeline.(active := true);
      if outcome.FailsToPlay? {
        StopPipeline();
        return false;
      }
      ok := true;
    }

    method Start(outcome: Outcome) returns (ok: bool)
      modifies this`pipeline
      ensures pipeline == RunJob(isShutdown, old(pipeline), Checking, outcome)
      ensures ok == (!isShutdown && outcome.Plays?)
    {
      JobsLeaveNoHalfStartedPipeline(isShutdown, pipeline, outcome);
      if isShutdown {
        return false;
      }
      ok := StartPipelineLocked(outcome);
    }

    method Close()
      modifies this
      ensures isShutdown
      ensures old(isShutdown) ==> handler == old(handler) && pipeline == old(pipeline)
      ensures !old(isShutdown) ==> handler == FH.Closed(old(handler)) && !pipeline.active
      ensures !old(isShutdown) && old(pipeline).active ==> pipeline == Pipeline(false, true, {})
    {
      if isShutdown {
        return;
      }
      isShutdown := true;
      handler := FH.Closed(handler);
      StopPipeline();
    }

    method OnPipelineFailure() returns (scheduled: bool)
      modifies this`handler
      ensures scheduled == (!isShutdown && FH.MaySchedule(old(handler)))
      ensures handler == if isShutdown then old(handler) else FH.Scheduled(old(handler))
    {
      if isShutdown {
        return false;
      }
      scheduled := FH.MaySchedule(handler);
      handler := FH.Scheduled(handler);
    }

    /** A failure to start again is reported and otherwise ignored. */
    method RestartPipelineAfterFailure(outcome: Outcome)
      modifies this`pipeline
      ensures pipeline == RunJob(isShutdown, old(pipeline), Checking, outcome)
    {
      JobsLeaveNoHalfStartedPipeline(isShutdown, pipeline, outcome);
      if isShutdown {
        return;
      }
      StopPipeline();
      JobsLeaveNoHalfStartedPipeline(false, pipeline, outcome);
      var ok := StartPipelineLocked(outcome);
    }
  }
}
