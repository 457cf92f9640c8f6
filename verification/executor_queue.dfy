/** The submit / drain / shutdown / wake protocol of RosExecutorQueue.

    `Shared` holds the fields guarded by State::mutex; one function per mutex section says what that
    section does to them. Class RosExecutorQueue is the imperative form of those sections. `Vars` adds
    one program counter per thread and a ledger of what happened to every task, and `Apply` is one
    atomic step of one thread. Inv is inductive, so what it says holds in every interleaving.

    The guard condition is one flag that a trigger sets and the start of an execute clears. A trigger
    that arrives while an execution is already due is lost here, which only makes waking harder. */
module ExecutorQueue {
  import opened Wrappers

  type Tid = nat
  type TaskId = nat

  // ---------------------------------------------------------------------------------------------
  // The mutex sections
  // ---------------------------------------------------------------------------------------------

  datatype Shared = Shared(tasks: seq<TaskId>, shutdown: bool, draining: bool, owner: Option<Tid>)

  function Pushed(s: Shared, id: TaskId): Shared {
    if s.shutdown then s else s.(tasks := s.tasks + [id])
  }

  function Flipped(s: Shared): Shared {
    if s.shutdown then s else s.(shutdown := true, tasks := [])
  }

  predicate MayClaim(s: Shared) {
    !s.shutdown && !s.draining
  }

  function Claimed(s: Shared, t: Tid): Shared {
    if MayClaim(s) then s.(draining := true, owner := Some(t)) else s
  }

  function Popped(s: Shared): Shared {
    if s.tasks == [] then s else s.(tasks := s.tasks[1..])
  }

  function Released(s: Shared): Shared {
    s.(draining := false, owner := None)
  }

  predicate IdleFor(s: Shared, t: Tid) {
    !s.draining || s.owner == Some(t)
  }

  /** The queue object. Each method is one critical section, or a loop over critical sections that no
      other thread interrupts. `settled` lists the futures in the order their promises are fulfilled. */
  class RosExecutorQueue {
    var tasks: seq<TaskId>
    var isShutdown: bool
    var draining: bool
    var drainOwner: Option<Tid>
    ghost var settled: seq<TaskId>

    ghost function Abs(): Shared
      reads this
    {
      Shared(tasks, isShutdown, draining, drainOwner)
    }

    constructor ()
      ensures Abs() == Shared([], false, false, None) && settled == []
    {
      tasks, isShutdown, draining, drainOwner := [], false, false, None;
      settled := [];
    }

    method Submit(id: TaskId) returns (accepted: bool)
      modifies this
      ensures accepted == !old(isShutdown)
      ensures Abs() == Pushed(old(Abs()), id)
      ensures tasks == old(tasks) + if accepted then [id] else []
      ensures isShutdown == old(isShutdown) && draining == old(draining) && drainOwner == old(drainOwner)
      ensures settled == old(settled) + if accepted then [] else [id]
    {
      if isShutdown {
        settled := settled + [id];
        return false;
      }
      tasks := tasks + [id];
      return true;
    }

    method FlipShutdown() returns (first: bool, queued: seq<TaskId>)
      modifies this`tasks, this`isShutdown
      ensures first == !old(isShutdown)
      ensures queued == if first then old(tasks) else []
      ensures Abs() == Flipped(old(Abs()))
      ensures isShutdown && tasks == if first then [] else old(tasks)
    {
      if isShutdown {
        return false, [];
      }
      isShutdown := true;
      queued := tasks;
      tasks := [];
      first := true;
    }

    /** The whole of shutdown() up to awaitIdle: the first caller cancels the snapshot front to back. */
    method CancelQueued()
      modifies this
      ensures Abs() == Flipped(old(Abs()))
      ensures isShutdown && (!old(isShutdown) ==> tasks == [])
      ensures settled == old(settled) + if old(isShutdown) then [] else old(tasks)
    {
      var first, queued := FlipShutdown();
      ghost var snapshot := queued;
      while queued != []
        invariant Abs() == Flipped(old(Abs()))
        invariant settled + queued == old(settled) + snapshot
      {
        settled := settled + [queued[0]];
        queued := queued[1..];
      }
    }

    method TryClaim(t: Tid) returns (ok: bool)
      modifies this`draining, this`drainOwner
      ensures ok == MayClaim(old(Abs()))
      ensures Abs() == Claimed(old(Abs()), t)
      ensures ok <==> !isShutdown && !old(draining)
      ensures draining == (old(draining) || ok) && drainOwner == if ok then Some(t) else old(drainOwner)
    {
      if isShutdown || draining {
        return false;
      }
      draining, drainOwner := true, Some(t);
      ok := true;
    }

    method Pop() returns (task: Option<TaskId>)
      modifies this`tasks
      ensures task == if old(tasks) == [] then None else Some(old(tasks)[0])
      ensures Abs() == Popped(old(Abs()))
      ensures old(tasks) == if task.None? then tasks else [task.value] + tasks
    {
      if tasks == [] {
        return None;
      }
      task := Some(tasks[0]);
      tasks := tasks[1..];
    }

    method Release()
      modifies this`draining, this`drainOwner
      ensures Abs() == Released(old(Abs()))
      ensures !draining && drainOwner == None
    {
      draining, drainOwner := false, None;
    }

    /** drain() when no other thread submits meanwhile. The k-th task that it runs submits submits[k], and the
        same drain runs those too. Every task runs once, in the order in which it was submitted. */
    method Drain(t: Tid, submits: seq<seq<TaskId>>) returns (ran: nat)
      modifies this
      ensures !draining || old(isShutdown) || old(draining)
      ensures !MayClaim(old(Abs())) ==> ran == 0 && Abs() == old(Abs()) && settled == old(settled)
      ensures MayClaim(old(Abs())) ==>
                && Abs() == Shared([], false, false, None)
                && settled == old(settled) + old(tasks) + Submitted(submits, ran)
                && ran == |old(tasks)| + |Submitted(submits, ran)|
    {
      ran := 0;
      var ok := TryClaim(t);
      if !ok {
        return;
      }
      ghost var all := old(settled) + old(tasks);
      assert all + Submitted(submits, 0) == all;
      while true
        invariant Abs() == old(Abs()).(tasks := tasks, draining := true, owner := Some(t))
        invariant settled + tasks == all + Submitted(submits, ran)
        invariant |settled| == |old(settled)| + ran
        decreases if ran < |submits| then |submits| - ran else 0, |tasks|
      {
        ghost var queued, done := tasks, settled;
        var task := Pop();
        if task.None? {
          break;
        }
        ghost var rest := tasks;
        if ran < |submits| {
          tasks := tasks + submits[ran];
        }
        settled := settled + [task.value];
        ghost var more := if ran < |submits| then submits[ran] else [];
        OneMoreRuns(all, Submitted(submits, ran), done, queued, rest, more);
        assert tasks == rest + more;
        ran := ran + 1;
      }
      Release();
    }
  }

  lemma OneMoreRuns(all: seq<TaskId>, taken: seq<TaskId>, done: seq<TaskId>, queued: seq<TaskId>, rest: seq<TaskId>,
                    more: seq<TaskId>)
    requires done + queued == all + taken && queued != [] && rest == queued[1..]
    ensures done + [queued[0]] + (rest + more) == all + (taken + more)
  {
    assert done + [queued[0]] + (rest + more) == done + queued + more;
  }

  /** What the first n tasks that run submit. */
  function Submitted(submits: seq<seq<TaskId>>, n: nat): seq<TaskId> {
    if n == 0 then [] else Submitted(submits, n - 1) + if n <= |submits| then submits[n - 1] else []
  }

  // ---------------------------------------------------------------------------------------------
  // Threads, the ledger, and the atomic steps
  // ---------------------------------------------------------------------------------------------

  /** Where a thread is inside DrainWaitable::execute and drain(). Leaving has seen the queue empty but
      has not yet cleared `draining`; Finished has left drain() but not yet the callback group. */
  datatype DrainPc = Outside | Claiming | Popping | Running(task: TaskId) | Leaving | Finished

  /** Where a thread is inside submit(), wake() or shutdown(); a running task may be inside one too. */
  datatype OpPc =
    | NoOp
    | Rejecting(task: TaskId)
    | MustWake
    | Triggering
    | MustShutdown
    | Cancelling
    | Awaiting(first: bool)

  datatype Thread = Thread(drain: DrainPc, op: OpPc)

  /** accepted: every task pushed, in submission order. finished, running, held (the snapshot of the
      first shutdown call) and cancelled say where each accepted task is. settled counts how often each
      promise was fulfilled. quiet: some shutdown() returned while no drain was active; allQuiet: that
      call was the first one. */
  datatype Ledger = Ledger(
    accepted: seq<TaskId>,
    finished: seq<TaskId>,
    running: seq<TaskId>,
    cancelled: seq<TaskId>,
    held: seq<TaskId>,
    next: TaskId,
    settled: multiset<TaskId>,
    flipper: Option<Tid>,
    quiet: bool,
    allQuiet: bool)

  /** serial: the callback group runs one callback at a time. group: threads inside execute(). */
  datatype Vars = Vars(
    serial: bool, sh: Shared, threads: map<Tid, Thread>, group: set<Tid>, triggered: bool, log: Ledger)

  function Th(v: Vars, t: Tid): Thread {
    if t in v.threads then v.threads[t] else Thread(Outside, NoOp)
  }

  function WithOp(v: Vars, t: Tid, op: OpPc): Vars {
    v.(threads := v.threads[t := Th(v, t).(op := op)])
  }

  function WithDrain(v: Vars, t: Tid, drain: DrainPc): Vars {
    v.(threads := v.threads[t := Th(v, t).(drain := drain)])
  }

  datatype Step =
    | Submit(t: Tid)
    | Reject(t: Tid)
    | WakeCheck(t: Tid)
    | Trigger(t: Tid, ok: bool)
    | CallShutdown(t: Tid)
    | Flip(t: Tid)
    | Cancel(t: Tid)
    | CancelDone(t: Tid)
    | AwaitIdle(t: Tid)
    | Execute(t: Tid)
    | Claim(t: Tid)
    | Pop(t: Tid)
    | FinishTask(t: Tid)
    | Leave(t: Tid)
    | Return(t: Tid)

  /** The steps of submit() up to the call of wake(). */
  predicate IsSubmit(s: Step) {
    s.Submit? || s.Reject?
  }

  /** The steps of wake(). A trigger that throws makes wake() call shutdown(). */
  predicate IsWake(s: Step) {
    s.WakeCheck? || s.Trigger?
  }

  /** The steps of shutdown(), including awaitIdle(). */
  predicate IsShutdown(s: Step) {
    s.CallShutdown? || s.Flip? || s.Cancel? || s.CancelDone? || s.AwaitIdle?
  }

  /** The steps of DrainWaitable::execute and drain(). */
  predicate IsDrain(s: Step) {
    !IsSubmit(s) && !IsWake(s) && !IsShutdown(s)
  }

  predicate Enabled(v: Vars, s: Step) {
    var th := Th(v, s.t);
    match s
    case Submit(_) => th.op.NoOp? && (th.drain.Outside? || th.drain.Running?)
    case CallShutdown(_) => th.op.NoOp? && (th.drain.Outside? || th.drain.Running?)
    case Reject(_) => th.op.Rejecting?
    case WakeCheck(_) => th.op.MustWake?
    case Trigger(_, _) => th.op.Triggering?
    case Flip(_) => th.op.MustShutdown?
    case Cancel(_) => th.op.Cancelling? && v.log.held != []
    case CancelDone(_) => th.op.Cancelling? && v.log.held == []
    case AwaitIdle(t) => th.op.Awaiting? && IdleFor(v.sh, t)
    case Execute(_) => th == Thread(Outside, NoOp) && (v.serial ==> v.group == {})
    case Claim(_) => th == Thread(Claiming, NoOp)
    case Pop(_) => th == Thread(Popping, NoOp)
    case FinishTask(_) => th.drain.Running? && th.op.NoOp?
    case Leave(_) => th == Thread(Leaving, NoOp)
    case Return(_) => th == Thread(Finished, NoOp)
  }

  function ApplySubmit(v: Vars, s: Step): Vars
    requires IsSubmit(s) && Enabled(v, s)
  {
    var t, l := s.t, v.log;
    match s
    case Submit(_) =>
      var w := v.(sh := Pushed(v.sh, l.next));
      if v.sh.shutdown then WithOp(w.(log := l.(next := l.next + 1)), t, Rejecting(l.next))
      else WithOp(w.(log := l.(next := l.next + 1, accepted := l.accepted + [l.next])), t, MustWake)
    case Reject(_) =>
      WithOp(v.(log := l.(settled := l.settled + multiset{Th(v, t).op.task})), t, NoOp)
  }

  function ApplyWake(v: Vars, s: Step): Vars
    requires IsWake(s) && Enabled(v, s)
  {
    match s
    case WakeCheck(t) =>
      WithOp(v, t, if v.sh.shutdown then NoOp else Triggering)
    case Trigger(t, ok) =>
      if ok then WithOp(v.(triggered := true), t, NoOp) else WithOp(v, t, MustShutdown)
  }

  function ApplyShutdown(v: Vars, s: Step): Vars
    requires IsShutdown(s) && Enabled(v, s)
  {
    var t, l := s.t, v.log;
    match s
    case CallShutdown(_) =>
      WithOp(v, t, MustShutdown)
    case Flip(_) =>
      if v.sh.shutdown then WithOp(v, t, Awaiting(false))
      else WithOp(v.(sh := Flipped(v.sh), log := l.(held := v.sh.tasks, flipper := Some(t))), t, Cancelling)
    case Cancel(_) =>
      var task := l.held[0];
      v.(log := l.(held := l.held[1..], cancelled := l.cancelled + [task], settled := l.settled + multiset{task}))
    case CancelDone(_) =>
      WithOp(v, t, Awaiting(true))
    case AwaitIdle(_) =>
      var first := Th(v, t).op.first;
      if v.sh.draining then WithOp(v, t, NoOp)
      else WithOp(v.(log := l.(quiet := true, allQuiet := l.allQuiet || first)), t, NoOp)
  }

  function ApplyDrain(v: Vars, s: Step): Vars
    requires IsDrain(s) && Enabled(v, s)
  {
    var t, l := s.t, v.log;
    match s
    case Execute(_) =>
      WithDrain(v.(group := v.group + {t}, triggered := false), t, Claiming)
    case Claim(_) =>
      WithDrain(v.(sh := Claimed(v.sh, t)), t, if MayClaim(v.sh) then Popping else Finished)
    case Pop(_) =>
      if v.sh.tasks == [] then WithDrain(v, t, Leaving)
      else
        var task := v.sh.tasks[0];
        WithDrain(v.(sh := Popped(v.sh), log := l.(running := [task])), t, Running(task))
    case FinishTask(_) =>
      var task := Th(v, t).drain.task;
      var done := l.(finished := l.finished + [task], running := [], settled := l.settled + multiset{task});
      WithDrain(v.(log := done), t, Popping)
    case Leave(_) =>
      WithDrain(v.(sh := Released(v.sh)), t, Finished)
    case Return(_) =>
      WithDrain(v.(group := v.group - {t}), t, Outside)
  }

  function Apply(v: Vars, s: Step): Vars
    requires Enabled(v, s)
  {
    if IsSubmit(s) then ApplySubmit(v, s)
    else if IsWake(s) then ApplyWake(v, s)
    else if IsShutdown(s) then ApplyShutdown(v, s)
    else ApplyDrain(v, s)
  }

  function Init(serial: bool): Vars {
    Vars(serial, Shared([], false, false, None), map[], {}, false,
         Ledger([], [], [], [], [], 0, multiset{}, None, false, false))
  }

  /** Whether `steps` can be taken one after the other from v. */
  predicate Runs(v: Vars, steps: seq<Step>)
    decreases |steps|
  {
    steps == [] || (Enabled(v, steps[0]) && Runs(Apply(v, steps[0]), steps[1..]))
  }

  function Exec(v: Vars, steps: seq<Step>): Vars
    requires Runs(v, steps)
    decreases |steps|
  {
    if steps == [] then v else Exec(Apply(v, steps[0]), steps[1..])
  }

  // ---------------------------------------------------------------------------------------------
  // The inductive invariant
  // ---------------------------------------------------------------------------------------------

  predicate Draining(d: DrainPc) {
    d.Popping? || d.Running? || d.Leaving?
  }

  /** `draining` and `drain_owner` name exactly the thread inside drain()'s loop. */
  ghost predicate OwnerInv(v: Vars) {
    && (forall t: Tid :: Draining(Th(v, t).drain) <==> v.sh.owner == Some(t))
    && (v.sh.draining <==> v.sh.owner.Some?)
    && (forall t: Tid :: Th(v, t).drain.Running? ==> v.log.running == [Th(v, t).drain.task])
    && (v.log.running != [] ==> v.sh.owner.Some? && Th(v, v.sh.owner.value).drain.Running?)
  }

  /** Every accepted task is in exactly one place, and the places in order give submission order. */
  ghost predicate LedgerInv(sh: Shared, l: Ledger) {
    && l.accepted == l.finished + l.running + l.cancelled + l.held + sh.tasks
    && (forall i :: 0 <= i < |l.accepted| ==> l.accepted[i] == i)
    && |l.accepted| <= l.next
    && (if sh.shutdown then sh.tasks == [] else l.cancelled == [] && l.held == [] && l.next == |l.accepted|)
  }

  /** Whether the promise of accepted task `id` has been fulfilled. */
  predicate IsSettled(l: Ledger, id: TaskId) {
    id in l.finished || id in l.cancelled
  }

  ghost predicate SettledInv(l: Ledger) {
    && (forall id: TaskId :: id < |l.accepted| ==> l.settled[id] == if IsSettled(l, id) then 1 else 0)
    && (forall id: TaskId :: l.next <= id ==> l.settled[id] == 0)
  }

  /** A rejected task is settled, or its submitter is about to settle it. */
  ghost predicate RejectedInv(v: Vars) {
    var l := v.log;
    && (forall t: Tid :: Th(v, t).op.Rejecting? ==>
          |l.accepted| <= Th(v, t).op.task < l.next && l.settled[Th(v, t).op.task] == 0)
    && (forall t: Tid, u: Tid :: Th(v, t).op.Rejecting? && Th(v, u).op == Th(v, t).op ==> t == u)
    && (forall id: TaskId :: |l.accepted| <= id < l.next ==>
          l.settled[id] == 1 || (l.settled[id] == 0 && exists t: Tid :: Th(v, t).op == Rejecting(id)))
  }

  ghost predicate ShutdownInv(v: Vars) {
    var l := v.log;
    && (v.sh.shutdown <==> l.flipper.Some?)
    && (forall t: Tid :: Th(v, t).op.Cancelling? ==> l.flipper == Some(t))
    && (l.held != [] ==> l.flipper.Some? && Th(v, l.flipper.value).op.Cancelling?)
    && (forall t: Tid :: Th(v, t).op.Awaiting? ==> v.sh.shutdown)
    && (forall t: Tid :: Th(v, t).op == Awaiting(true) ==> l.flipper == Some(t) && l.held == [])
    && (l.quiet ==> v.sh.shutdown && !v.sh.draining)
    && (l.allQuiet ==> l.quiet && l.held == [])
  }

  predicate WillServe(th: Thread) {
    || th.op.MustWake? || th.op.Triggering? || th.op.MustShutdown?
    || th.drain.Claiming? || th.drain.Popping? || th.drain.Running?
  }

  /** With one callback at a time, a non-empty open queue is always about to be looked at again. */
  ghost predicate ServedInv(v: Vars) {
    && (forall t: Tid :: t in v.group <==> !Th(v, t).drain.Outside?)
    && (v.serial ==> forall t: Tid, u: Tid :: t in v.group && u in v.group ==> t == u)
    && (v.serial && !v.sh.shutdown && v.sh.tasks != [] ==> v.triggered || exists t: Tid :: WillServe(Th(v, t)))
  }

  ghost predicate Inv(v: Vars) {
    OwnerInv(v) && LedgerInv(v.sh, v.log) && SettledInv(v.log) && RejectedInv(v) && ShutdownInv(v) && ServedInv(v)
  }

  lemma LedgerPositions(sh: Shared, l: Ledger, id: TaskId)
    requires LedgerInv(sh, l)
    ensures id in l.finished <==> id < |l.finished|
    ensures id in l.running <==> 0 <= id - |l.finished| < |l.running|
    ensures id in l.cancelled <==> 0 <= id - |l.finished + l.running| < |l.cancelled|
  {
    var a, b, c := |l.finished|, |l.running|, |l.cancelled|;
    forall i | 0 <= i < a ensures l.finished[i] == i { assert l.accepted[i] == l.finished[i]; }
    forall i | 0 <= i < b ensures l.running[i] == a + i { assert l.accepted[a + i] == l.running[i]; }
    forall i | 0 <= i < c ensures l.cancelled[i] == a + b + i { assert l.accepted[a + b + i] == l.cancelled[i]; }
    if id < a { assert l.finished[id] == id; }
    if a <= id < a + b { assert l.running[id - a] == id; }
    if a + b <= id < a + b + c { assert l.cancelled[id - a - b] == id; }
  }

  lemma RejectedFrame(v: Vars, w: Vars)
    requires RejectedInv(v)
    requires w.log.accepted == v.log.accepted && w.log.next == v.log.next
    requires forall id: TaskId :: |v.log.accepted| <= id ==> w.log.settled[id] == v.log.settled[id]
    requires forall t: Tid :: Th(v, t).op.Rejecting? || Th(w, t).op.Rejecting? ==> Th(w, t).op == Th(v, t).op
    ensures RejectedInv(w)
  {
  }

  lemma SubmitKeepsOwner(v: Vars, s: Step)
    requires OwnerInv(v) && IsSubmit(s) && Enabled(v, s)
    ensures OwnerInv(ApplySubmit(v, s))
  {
    assert forall u: Tid :: Th(ApplySubmit(v, s), u).drain == Th(v, u).drain;
  }

  lemma SubmitKeepsLedger(v: Vars, s: Step)
    requires OwnerInv(v) && LedgerInv(v.sh, v.log) && IsSubmit(s) && Enabled(v, s)
    ensures LedgerInv(ApplySubmit(v, s).sh, ApplySubmit(v, s).log)
  {
  }

  lemma SubmitKeepsSettled(v: Vars, s: Step)
    requires LedgerInv(v.sh, v.log) && SettledInv(v.log) && RejectedInv(v) && IsSubmit(s) && Enabled(v, s)
    ensures SettledInv(ApplySubmit(v, s).log)
  {
    LedgerPositions(v.sh, v.log, v.log.next);
  }

  lemma SubmitKeepsRejected(v: Vars, s: Step)
    requires LedgerInv(v.sh, v.log) && SettledInv(v.log) && RejectedInv(v) && IsSubmit(s) && Enabled(v, s)
    ensures RejectedInv(ApplySubmit(v, s))
  {
    var w := ApplySubmit(v, s);
    assert forall u: Tid :: u != s.t ==> Th(w, u) == Th(v, u);
    if v.sh.shutdown {
      forall id: TaskId | |w.log.accepted| <= id < w.log.next && w.log.settled[id] != 1
        ensures w.log.settled[id] == 0 && exists t: Tid :: Th(w, t).op == Rejecting(id)
      {
        var u: Tid :| if id == v.log.next then u == s.t else Th(v, u).op == Rejecting(id);
        assert Th(w, u).op == Rejecting(id);
      }
    }
  }

  lemma SubmitKeepsShutdown(v: Vars, s: Step)
    requires ShutdownInv(v) && IsSubmit(s) && Enabled(v, s)
    ensures ShutdownInv(ApplySubmit(v, s))
  {
    assert forall u: Tid :: u != s.t ==> Th(ApplySubmit(v, s), u) == Th(v, u);
  }

  lemma SubmitKeepsServed(v: Vars, s: Step)
    requires OwnerInv(v) && ServedInv(v) && IsSubmit(s) && Enabled(v, s)
    ensures ServedInv(ApplySubmit(v, s))
  {
  }

  lemma ShutdownKeepsOwner(v: Vars, s: Step)
    requires OwnerInv(v) && IsShutdown(s) && Enabled(v, s)
    ensures OwnerInv(ApplyShutdown(v, s))
  {
    assert forall u: Tid :: Th(ApplyShutdown(v, s), u).drain == Th(v, u).drain;
  }

  lemma ShutdownKeepsLedger(v: Vars, s: Step)
    requires OwnerInv(v) && LedgerInv(v.sh, v.log) && IsShutdown(s) && Enabled(v, s)
    ensures LedgerInv(ApplyShutdown(v, s).sh, ApplyShutdown(v, s).log)
  {
  }

  lemma ShutdownKeepsSettled(v: Vars, s: Step)
    requires LedgerInv(v.sh, v.log) && SettledInv(v.log) && IsShutdown(s) && Enabled(v, s)
    ensures SettledInv(ApplyShutdown(v, s).log)
  {
    if s.Cancel? {
      var l := v.log;
      assert l.held[0] == l.accepted[|l.finished + l.running + l.cancelled|];
      LedgerPositions(v.sh, v.log, l.held[0]);
    }
  }

  lemma ShutdownKeepsRejected(v: Vars, s: Step)
    requires LedgerInv(v.sh, v.log) && SettledInv(v.log) && RejectedInv(v) && IsShutdown(s) && Enabled(v, s)
    ensures RejectedInv(ApplyShutdown(v, s))
  {
    var w := ApplyShutdown(v, s);
    assert forall u: Tid :: u != s.t ==> Th(w, u) == Th(v, u);
    if s.Cancel? {
      assert v.log.held[0] == v.log.accepted[|v.log.finished + v.log.running + v.log.cancelled|];
    }
    RejectedFrame(v, w);
  }

  lemma ShutdownKeepsShutdown(v: Vars, s: Step)
    requires ShutdownInv(v) && IsShutdown(s) && Enabled(v, s)
    ensures ShutdownInv(ApplyShutdown(v, s))
  {
    assert forall u: Tid :: u != s.t ==> Th(ApplyShutdown(v, s), u) == Th(v, u);
  }

  lemma ShutdownKeepsServed(v: Vars, s: Step)
    requires OwnerInv(v) && ServedInv(v) && IsShutdown(s) && Enabled(v, s)
    ensures ServedInv(ApplyShutdown(v, s))
  {
    assert forall u: Tid :: u != s.t ==> Th(ApplyShutdown(v, s), u) == Th(v, u);
  }

  lemma DrainKeepsOwner(v: Vars, s: Step)
    requires OwnerInv(v) && IsDrain(s) && Enabled(v, s)
    ensures OwnerInv(ApplyDrain(v, s))
  {
    assert forall u: Tid :: u != s.t ==> Th(ApplyDrain(v, s), u) == Th(v, u);
  }

  lemma DrainKeepsLedger(v: Vars, s: Step)
    requires OwnerInv(v) && LedgerInv(v.sh, v.log) && IsDrain(s) && Enabled(v, s)
    ensures LedgerInv(ApplyDrain(v, s).sh, ApplyDrain(v, s).log)
  {
  }

  lemma DrainKeepsSettled(v: Vars, s: Step)
    requires OwnerInv(v) && LedgerInv(v.sh, v.log) && SettledInv(v.log) && IsDrain(s) && Enabled(v, s)
    ensures SettledInv(ApplyDrain(v, s).log)
  {
    if s.FinishTask? {
      var l := v.log;
      assert l.running[0] == l.accepted[|l.finished|];
      LedgerPositions(v.sh, v.log, l.running[0]);
    }
  }

  lemma DrainKeepsRejected(v: Vars, s: Step)
    requires OwnerInv(v) && LedgerInv(v.sh, v.log) && SettledInv(v.log) && RejectedInv(v) && IsDrain(s) && Enabled(v, s)
    ensures RejectedInv(ApplyDrain(v, s))
  {
    var w := ApplyDrain(v, s);
    assert forall u: Tid :: Th(w, u).op == Th(v, u).op;
    if s.FinishTask? {
      assert v.log.running[0] == v.log.accepted[|v.log.finished|];
    }
    RejectedFrame(v, w);
  }

  lemma DrainKeepsShutdown(v: Vars, s: Step)
    requires ShutdownInv(v) && IsDrain(s) && Enabled(v, s)
    ensures ShutdownInv(ApplyDrain(v, s))
  {
    assert forall u: Tid :: Th(ApplyDrain(v, s), u).op == Th(v, u).op;
  }

  lemma DrainKeepsServed(v: Vars, s: Step)
    requires OwnerInv(v) && ServedInv(v) && IsDrain(s) && Enabled(v, s)
    ensures ServedInv(ApplyDrain(v, s))
  {
    assert forall u: Tid :: u != s.t ==> Th(ApplyDrain(v, s), u) == Th(v, u);
  }

  lemma WakeKeepsServed(v: Vars, s: Step)
    requires ServedInv(v) && IsWake(s) && Enabled(v, s)
    ensures ServedInv(ApplyWake(v, s))
  {
  }

  lemma WakeKeepsOwner(v: Vars, s: Step)
    requires OwnerInv(v) && IsWake(s) && Enabled(v, s)
    ensures OwnerInv(ApplyWake(v, s))
  {
    assert forall u: Tid :: Th(ApplyWake(v, s), u).drain == Th(v, u).drain;
  }

  lemma WakeKeepsRejected(v: Vars, s: Step)
    requires RejectedInv(v) && IsWake(s) && Enabled(v, s)
    ensures RejectedInv(ApplyWake(v, s))
    ensures ApplyWake(v, s).sh == v.sh && ApplyWake(v, s).log == v.log
  {
    assert forall u: Tid :: u != s.t ==> Th(ApplyWake(v, s), u) == Th(v, u);
    RejectedFrame(v, ApplyWake(v, s));
  }

  lemma WakeKeepsShutdown(v: Vars, s: Step)
    requires ShutdownInv(v) && IsWake(s) && Enabled(v, s)
    ensures ShutdownInv(ApplyWake(v, s))
  {
    assert forall u: Tid :: u != s.t ==> Th(ApplyWake(v, s), u) == Th(v, u);
  }

  lemma StepKeepsInv(v: Vars, s: Step)
    requires Inv(v) && Enabled(v, s)
    ensures Inv(Apply(v, s))
  {
    if IsSubmit(s) {
      SubmitKeepsOwner(v, s);
      SubmitKeepsLedger(v, s);
      SubmitKeepsSettled(v, s);
      SubmitKeepsRejected(v, s);
      SubmitKeepsShutdown(v, s);
      SubmitKeepsServed(v, s);
    } else if IsWake(s) {
      WakeKeepsOwner(v, s);
      WakeKeepsRejected(v, s);
      WakeKeepsShutdown(v, s);
      WakeKeepsServed(v, s);
    } else if IsShutdown(s) {
      ShutdownKeepsOwner(v, s);
      ShutdownKeepsLedger(v, s);
      ShutdownKeepsSettled(v, s);
      ShutdownKeepsRejected(v, s);
      ShutdownKeepsShutdown(v, s);
      ShutdownKeepsServed(v, s);
    } else {
      DrainKeepsOwner(v, s);
      DrainKeepsLedger(v, s);
      DrainKeepsSettled(v, s);
      DrainKeepsRejected(v, s);
      DrainKeepsShutdown(v, s);
      DrainKeepsServed(v, s);
    }
  }

  lemma {:induction false} RunKeepsInv(v: Vars, steps: seq<Step>)
    requires Inv(v) && Runs(v, steps)
    ensures Inv(Exec(v, steps))
    decreases |steps|
  {
    if steps != [] {
      StepKeepsInv(v, steps[0]);
      RunKeepsInv(Apply(v, steps[0]), steps[1..]);
    }
  }

  // ---------------------------------------------------------------------------------------------
  // What holds in every run
  // ---------------------------------------------------------------------------------------------

  /** Submission order: the tasks that ran, then the one running, then the rest, in the order they were
      accepted. Each accepted future is settled once if its task finished or was cancelled and is
      otherwise still open; a rejected one is settled once as soon as submit() gets past its cancel. */
  lemma InOrderAndSettledOnce(serial: bool, steps: seq<Step>)
    requires Runs(Init(serial), steps)
    ensures var v := Exec(Init(serial), steps);
            var l := v.log;
            && l.accepted == l.finished + l.running + l.cancelled + l.held + v.sh.tasks
            && |l.running| <= 1
            && (forall id: TaskId :: id in l.accepted ==> l.settled[id] == if IsSettled(l, id) then 1 else 0)
            && (forall id: TaskId :: l.settled[id] <= 1 && (l.settled[id] == 1 ==> id < l.next))
            && (forall id: TaskId :: id < l.next && id !in l.accepted && l.settled[id] == 0 ==>
                  exists t: Tid :: Th(v, t).op == Rejecting(id))
  {
    RunKeepsInv(Init(serial), steps);
    var v := Exec(Init(serial), steps);
    forall id: TaskId ensures id in v.log.accepted <==> id < |v.log.accepted| {
      if id < |v.log.accepted| { assert v.log.accepted[id] == id; }
    }
    forall id: TaskId ensures v.log.settled[id] <= 1 && (v.log.settled[id] == 1 ==> id < v.log.next) {
      if id >= v.log.next { assert v.log.settled[id] == 0; }
    }
  }

  /** While the queue is open and the callback group runs one callback at a time, no queued task is
      stranded: someone is about to trigger the guard, shut down or test the queue again. */
  lemma NoTaskStranded(steps: seq<Step>)
    requires Runs(Init(true), steps)
    ensures var v := Exec(Init(true), steps);
            v.sh.shutdown || v.sh.tasks == [] || v.triggered || exists t: Tid :: WillServe(Th(v, t))
  {
    RunKeepsInv(Init(true), steps);
    SerialIsFixed(Init(true), steps);
  }

  lemma {:induction false} SerialIsFixed(v: Vars, steps: seq<Step>)
    requires Runs(v, steps)
    ensures Exec(v, steps).serial == v.serial
    decreases |steps|
  {
    if steps != [] {
      SerialIsFixed(Apply(v, steps[0]), steps[1..]);
    }
  }

  /** Once some shutdown() returned off the drain thread, no task starts, finishes or is accepted any
      more, whatever the threads do; once the first one did, the same holds for cancellations, so every
      accepted future is settled exactly once and stays so. */
  lemma {:induction false} NothingStartsAfterShutdown(v: Vars, steps: seq<Step>)
    requires Inv(v) && v.log.quiet && Runs(v, steps)
    ensures var w := Exec(v, steps);
            && w.log.quiet && w.log.running == [] && w.sh.tasks == []
            && w.log.finished == v.log.finished && w.log.accepted == v.log.accepted
            && (v.log.allQuiet ==> w.log.allQuiet && w.log.cancelled == v.log.cancelled && w.log.held == [])
            && (v.log.allQuiet ==> forall id: TaskId :: id in v.log.accepted ==> w.log.settled[id] == 1)
    decreases |steps|
  {
    if steps == [] {
      var l := v.log;
      if l.allQuiet {
        assert l.accepted == l.finished + l.cancelled;
        forall id: TaskId | id in l.accepted ensures l.settled[id] == 1 && IsSettled(l, id) {
          var i :| 0 <= i < |l.accepted| && l.accepted[i] == id;
          assert i == id;
        }
      }
    } else {
      var s := steps[0];
      QuietStep(v, s);
      StepKeepsInv(v, s);
      NothingStartsAfterShutdown(Apply(v, s), steps[1..]);
    }
  }

  lemma QuietStep(v: Vars, s: Step)
    requires Inv(v) && v.log.quiet && Enabled(v, s)
    ensures var w := Apply(v, s);
            && w.log.quiet && w.log.finished == v.log.finished && w.log.accepted == v.log.accepted
            && (v.log.allQuiet ==> w.log.allQuiet && w.log.cancelled == v.log.cancelled)
  {
    assert !Draining(Th(v, s.t).drain);
  }

  /** A shutdown() call that returns off the drain thread leaves no task queued or running and no drain
      active; if it was the first call, every accepted future is settled by then. */
  lemma ShutdownReturnsQuiet(v: Vars, t: Tid)
    requires Inv(v) && Enabled(v, AwaitIdle(t)) && v.sh.owner != Some(t)
    ensures var w := Apply(v, AwaitIdle(t));
            && w.sh.shutdown && !w.sh.draining && w.sh.tasks == [] && w.log.running == []
            && (forall u: Tid :: !Draining(Th(w, u).drain))
            && (Th(v, t).op.first ==> forall id: TaskId :: id in w.log.accepted ==> w.log.settled[id] == 1)
    ensures var l := Apply(v, AwaitIdle(t)).log; l.quiet && (Th(v, t).op.first ==> l.allQuiet)
  {
    var w := Apply(v, AwaitIdle(t));
    StepKeepsInv(v, AwaitIdle(t));
    NothingStartsAfterShutdown(w, []);
    assert Exec(w, []) == w;
  }

  /** Another shutdown() call that returns off the drain thread leaves accepted futures open exactly if
      the first call is still cancelling. */
  lemma LaterShutdownMayReturnEarly(v: Vars, t: Tid)
    requires Inv(v) && Enabled(v, AwaitIdle(t)) && v.sh.owner != Some(t)
    ensures var w := Apply(v, AwaitIdle(t));
            (forall id: TaskId :: id in w.log.accepted ==> w.log.settled[id] == 1) <==> w.log.held == []
  {
    var w := Apply(v, AwaitIdle(t));
    var l := w.log;
    StepKeepsInv(v, AwaitIdle(t));
    ShutdownReturnsQuiet(v, t);
    assert l.accepted == l.finished + l.cancelled + l.held;
    if l.held == [] {
      forall id: TaskId | id in l.accepted ensures l.settled[id] == 1 {
        var i :| 0 <= i < |l.accepted| && l.accepted[i] == id;
        assert i == id && IsSettled(l, id);
      }
    } else {
      var i := |l.finished| + |l.cancelled|;
      assert l.accepted[i] == i && i in l.accepted;
      LedgerPositions(w.sh, l, i);
      assert !IsSettled(l, i);
    }
  }

  lemma {:induction false} Extend(init: Vars, steps: seq<Step>, v: Vars, s: Step) returns (more: seq<Step>, w: Vars)
    requires Runs(init, steps) && Exec(init, steps) == v && Enabled(v, s)
    ensures more == steps + [s] && Runs(init, more) && w == Exec(init, more) == Apply(v, s)
    decreases |steps|
  {
    more, w := steps + [s], Apply(v, s);
    if steps == [] {
      assert Exec(w, []) == w;
    } else {
      var rest, _ := Extend(Apply(init, steps[0]), steps[1..], v, s);
      assert more[1..] == rest;
    }
  }

  lemma DrainClaimed() returns (steps: seq<Step>, v: Vars)
    ensures Runs(Init(false), steps) && v == Exec(Init(false), steps)
    ensures v.sh == Shared([0], false, true, Some(1)) && !v.triggered
    ensures v.threads == map[0 := Thread(Outside, NoOp), 1 := Thread(Popping, NoOp)]
    ensures v.log.accepted == [0] && v.log.running == [] && v.log.next == 1 && !v.serial
  {
    var init := Init(false);
    steps, v := Extend(init, [], init, Submit(0));
    steps, v := Extend(init, steps, v, WakeCheck(0));
    steps, v := Extend(init, steps, v, Trigger(0, true));
    steps, v := Extend(init, steps, v, Execute(1));
    steps, v := Extend(init, steps, v, Claim(1));
  }

  /** A drain has run one task and seen the queue empty, but is still marked as active. */
  lemma DrainSawEmpty() returns (steps: seq<Step>, v: Vars)
    ensures Runs(Init(false), steps) && v == Exec(Init(false), steps)
    ensures v.sh == Shared([], false, true, Some(1)) && !v.triggered
    ensures v.threads == map[0 := Thread(Outside, NoOp), 1 := Thread(Leaving, NoOp)]
    ensures v.log.accepted == [0] && v.log.next == 1 && !v.serial
  {
    var init := Init(false);
    steps, v := DrainClaimed();
    steps, v := Extend(init, steps, v, Pop(1));
    steps, v := Extend(init, steps, v, FinishTask(1));
    steps, v := Extend(init, steps, v, Pop(1));
  }

  /** Without that group a wake-up can be consumed by an execute that finds the drain still marked
      active after it saw the queue empty: the task stays queued and nobody will look at it. */
  lemma OverlappingCallbacksStrandATask()
    ensures exists steps: seq<Step> ::
              && Runs(Init(false), steps)
              && var v := Exec(Init(false), steps);
                 && v.sh == Shared([1], false, false, None)
                 && !v.triggered
                 && forall t: Tid :: Th(v, t) == Thread(Outside, NoOp)
  {
    var init := Init(false);
    var steps, v := DrainSawEmpty();
    steps, v := Extend(init, steps, v, Submit(0));
    steps, v := Extend(init, steps, v, WakeCheck(0));
    steps, v := Extend(init, steps, v, Trigger(0, true));
    steps, v := Extend(init, steps, v, Execute(2));
    steps, v := Extend(init, steps, v, Claim(2));
    steps, v := Extend(init, steps, v, Return(2));
    steps, v := Extend(init, steps, v, Leave(1));
    steps, v := Extend(init, steps, v, Return(1));
  }

  /** A queued task that nobody will look at. */
  ghost predicate Stranded(v: Vars) {
    !v.sh.shutdown && v.sh.tasks != [] && !v.triggered && forall t: Tid :: !WillServe(Th(v, t))
  }

  /** A wake-up whose execute finds the drain still marked as active, when nobody else will serve. */
  ghost predicate LosesWakeup(v: Vars, s: Step) {
    && s.Claim? && v.sh.draining && !v.sh.shutdown && v.sh.tasks != [] && !v.triggered
    && forall u: Tid :: u != s.t ==> !WillServe(Th(v, u))
  }

  lemma OthersServe(v: Vars, s: Step)
    requires Enabled(v, s)
    ensures forall u: Tid :: u != s.t ==> Th(Apply(v, s), u) == Th(v, u)
  {
  }

  lemma SubmitNeverStrands(v: Vars, s: Step)
    requires IsSubmit(s) && Enabled(v, s) && !Stranded(v)
    ensures !Stranded(ApplySubmit(v, s))
  {
    var w := ApplySubmit(v, s);
    OthersServe(v, s);
    if !v.sh.shutdown && s.Submit? {
      assert WillServe(Th(w, s.t));
    } else if !v.sh.shutdown && v.sh.tasks != [] && !v.triggered {
      var t: Tid :| WillServe(Th(v, t));
      assert WillServe(Th(w, t));
    }
  }

  lemma WakeNeverStrands(v: Vars, s: Step)
    requires IsWake(s) && Enabled(v, s) && !Stranded(v)
    ensures !Stranded(ApplyWake(v, s))
  {
    var w := ApplyWake(v, s);
    OthersServe(v, s);
    if !v.sh.shutdown && !w.triggered {
      assert WillServe(Th(w, s.t));
    }
  }

  lemma ShutdownNeverStrands(v: Vars, s: Step)
    requires ShutdownInv(v) && IsShutdown(s) && Enabled(v, s) && !Stranded(v)
    ensures !Stranded(ApplyShutdown(v, s))
  {
    var w := ApplyShutdown(v, s);
    OthersServe(v, s);
    if !w.sh.shutdown {
      assert s.CallShutdown? && WillServe(Th(w, s.t));
    }
  }

  lemma DrainStrandsByLosing(v: Vars, s: Step)
    requires OwnerInv(v) && IsDrain(s) && Enabled(v, s) && !Stranded(v)
    ensures Stranded(ApplyDrain(v, s)) <==> LosesWakeup(v, s)
  {
    var w := ApplyDrain(v, s);
    OthersServe(v, s);
    if s.Claim? {
      assert forall u: Tid :: u != s.t ==> WillServe(Th(w, u)) == WillServe(Th(v, u));
    } else if s.Leave? || s.Return? {
      assert forall u: Tid :: WillServe(Th(w, u)) == WillServe(Th(v, u));
    } else if v.sh.tasks != [] {
      assert WillServe(Th(w, s.t));
    }
  }

  /** The step that strands a task is always the same: an execute consumes the wake-up and finds the drain
      still marked as active, by a thread that has already seen the queue empty. */
  lemma StrandedOnlyByLosingAWakeup(v: Vars, s: Step)
    requires Inv(v) && Enabled(v, s) && !Stranded(v)
    ensures Stranded(Apply(v, s)) <==> LosesWakeup(v, s)
    ensures LosesWakeup(v, s) ==> !v.serial && v.sh.owner.Some? && Th(v, v.sh.owner.value).drain.Leaving?
  {
    if IsSubmit(s) {
      SubmitNeverStrands(v, s);
    } else if IsWake(s) {
      WakeNeverStrands(v, s);
    } else if IsShutdown(s) {
      ShutdownNeverStrands(v, s);
    } else {
      DrainStrandsByLosing(v, s);
      if LosesWakeup(v, s) {
        var u := v.sh.owner.value;
        assert Draining(Th(v, u).drain) && u != s.t && u in v.group && s.t in v.group;
      }
    }
  }

  /** A second shutdown() call has returned while the first one still holds a task that it has to cancel. */
  lemma SecondShutdownReturnsFirst()
    ensures exists steps: seq<Step> ::
              && Runs(Init(true), steps)
              && var v := Exec(Init(true), steps);
                 v.log.quiet && Th(v, 2) == Thread(Outside, NoOp) && v.log.held == [0] && v.log.settled == multiset{}
  {
    var init := Init(true);
    var steps, v := Extend(init, [], init, Submit(0));
    steps, v := Extend(init, steps, v, CallShutdown(1));
    steps, v := Extend(init, steps, v, Flip(1));
    steps, v := Extend(init, steps, v, CallShutdown(2));
    steps, v := Extend(init, steps, v, Flip(2));
    assert v.sh == Shared([], true, false, None) && Th(v, 2) == Thread(Outside, Awaiting(false));
    assert v.log.held == [0] && v.log.settled == multiset{};
    steps, v := Extend(init, steps, v, AwaitIdle(2));
  }

  // ---------------------------------------------------------------------------------------------
  // Every call can be completed
  // ---------------------------------------------------------------------------------------------

  /** How far an operation is from its end, but for the tasks that it still has to cancel. */
  function OpRank(op: OpPc): nat {
    match op
    case NoOp => 0
    case Rejecting(_) => 1
    case Awaiting(_) => 1
    case Cancelling => 2
    case MustShutdown => 3
    case Triggering => 4
    case MustWake => 5
  }

  function DrainRank(d: DrainPc): nat {
    match d
    case Running(_) => 3
    case Popping => 2
    case Leaving => 1
    case _ => 0
  }

  function OwnerRank(v: Vars): (nat, nat) {
    match v.sh.owner
    case Some(u) => (DrainRank(Th(v, u).drain), OpRank(Th(v, u).op))
    case None => (0, 0)
  }

  /** w is closer than v to the end of t's operation. */
  predicate Closer(w: Vars, v: Vars, t: Tid) {
    var (a, d) := (OpRank(Th(w, t).op), OpRank(Th(v, t).op));
    var (b, e) := (|w.log.held|, |v.log.held|);
    a < d || (a == d && (b < e || (b == e &&
      (OwnerRank(w).0 < OwnerRank(v).0 || (OwnerRank(w).0 == OwnerRank(v).0 && OwnerRank(w).1 < OwnerRank(v).1)))))
  }

  predicate IsNewWork(s: Step) {
    s.Submit? || s.CallShutdown? || s.Execute?
  }

  /** The next step of an operation that waits for nobody. */
  lemma GoOn(v: Vars, t: Tid) returns (s: Step)
    requires Inv(v) && !Th(v, t).op.NoOp? && !(Th(v, t).op.Awaiting? && !IdleFor(v.sh, t))
    ensures Enabled(v, s) && !IsNewWork(s) && s.t == t
    ensures var w := Apply(v, s);
            && Th(w, t).drain == Th(v, t).drain && w.sh.owner == v.sh.owner
            && (OpRank(Th(w, t).op) < OpRank(Th(v, t).op)
                || (Th(w, t).op == Th(v, t).op && |w.log.held| < |v.log.held|))
    ensures v.sh.shutdown ==> |Apply(v, s).log.held| <= |v.log.held|
  {
    match Th(v, t).op
    case Rejecting(_) => s := Reject(t);
    case MustWake => s := WakeCheck(t);
    case Triggering => s := Trigger(t, true);
    case MustShutdown => s := Flip(t);
    case Cancelling => s := if v.log.held == [] then CancelDone(t) else Cancel(t);
    case Awaiting(_) => s := AwaitIdle(t);
  }

  /** While t waits in awaitIdle(), the thread inside drain() finishes its task and leaves. */
  lemma LetTheDrainLeave(v: Vars, t: Tid) returns (s: Step)
    requires Inv(v) && Th(v, t).op.Awaiting? && !IdleFor(v.sh, t)
    ensures Enabled(v, s) && !IsNewWork(s) && Closer(Apply(v, s), v, t)
  {
    var u := v.sh.owner.value;
    assert Draining(Th(v, u).drain) && u != t;
    if Th(v, u).op.NoOp? {
      s := match Th(v, u).drain
           case Running(_) => FinishTask(u)
           case Popping => Pop(u)
           case _ => Leave(u);
    } else {
      s := GoOn(v, u);
    }
    OthersServe(v, s);
  }

  /** No reachable state is a deadlock for a submit(), wake() or shutdown() in progress: some run completes
      it without any new call, if the tasks that are running return. */
  lemma {:induction false} CallCanComplete(v: Vars, t: Tid) returns (steps: seq<Step>)
    requires Inv(v)
    ensures Runs(v, steps) && Th(Exec(v, steps), t).op.NoOp?
    ensures forall i :: 0 <= i < |steps| ==> !IsNewWork(steps[i])
    decreases OpRank(Th(v, t).op), |v.log.held|, OwnerRank(v).0, OwnerRank(v).1
  {
    steps := [];
    if !Th(v, t).op.NoOp? {
      var s: Step;
      if Th(v, t).op.Awaiting? && !IdleFor(v.sh, t) {
        s := LetTheDrainLeave(v, t);
      } else {
        s := GoOn(v, t);
      }
      StepKeepsInv(v, s);
      var rest := CallCanComplete(Apply(v, s), t);
      steps := [s] + rest;
      assert steps[1..] == rest;
    }
  }

  lemma NoDeadlock(serial: bool, before: seq<Step>, t: Tid)
    requires Runs(Init(serial), before)
    ensures exists after: seq<Step> ::
              && Runs(Exec(Init(serial), before), after)
              && Th(Exec(Exec(Init(serial), before), after), t).op.NoOp?
  {
    RunKeepsInv(Init(serial), before);
    var after := CallCanComplete(Exec(Init(serial), before), t);
  }

  // ---------------------------------------------------------------------------------------------
  // Stranding over whole runs, and progress of queued tasks
  // ---------------------------------------------------------------------------------------------

  /** No step of the run loses a wake-up. */
  ghost predicate NeverLosesWakeup(v: Vars, steps: seq<Step>)
    requires Runs(v, steps)
    decreases |steps|
  {
    steps == [] || (!LosesWakeup(v, steps[0]) && NeverLosesWakeup(Apply(v, steps[0]), steps[1..]))
  }

  /** No state of the run has a stranded task. */
  ghost predicate NeverStrands(v: Vars, steps: seq<Step>)
    requires Runs(v, steps)
    decreases |steps|
  {
    !Stranded(v) && (steps == [] || NeverStrands(Apply(v, steps[0]), steps[1..]))
  }

  /** A run strands no task, in any of its states, exactly if it never loses a wake-up. */
  lemma {:induction false} RunStrandsOnlyByLosingAWakeup(v: Vars, steps: seq<Step>)
    requires Inv(v) && !Stranded(v) && Runs(v, steps)
    ensures NeverStrands(v, steps) <==> NeverLosesWakeup(v, steps)
    decreases |steps|
  {
    if steps != [] {
      var w := Apply(v, steps[0]);
      StrandedOnlyByLosingAWakeup(v, steps[0]);
      StepKeepsInv(v, steps[0]);
      if !Stranded(w) {
        RunStrandsOnlyByLosingAWakeup(w, steps[1..]);
      }
    }
  }

  /** Inside drain() only a running task makes calls. */
  ghost predicate PlainInv(v: Vars) {
    forall t: Tid :: Th(v, t).drain.Outside? || Th(v, t).drain.Running? || Th(v, t).op.NoOp?
  }

  lemma StepKeepsPlain(v: Vars, s: Step)
    requires PlainInv(v) && Enabled(v, s)
    ensures PlainInv(Apply(v, s)) && Apply(v, s).serial == v.serial
  {
    OthersServe(v, s);
  }

  lemma {:induction false} RunKeepsPlain(v: Vars, steps: seq<Step>)
    requires PlainInv(v) && Runs(v, steps)
    ensures PlainInv(Exec(v, steps))
    decreases |steps|
  {
    if steps != [] {
      StepKeepsPlain(v, steps[0]);
      RunKeepsPlain(Apply(v, steps[0]), steps[1..]);
    }
  }

  /** What is still to be settled; a running task is half done. */
  function Unsettled(v: Vars): nat {
    2 * |v.sh.tasks| + 2 * |v.log.held| + |v.log.running|
  }

  ghost predicate SomeoneClaims(v: Vars) {
    exists t: Tid :: Th(v, t).drain.Claiming?
  }

  predicate MayTrigger(th: Thread) {
    th.op.Triggering? || th.op.MustShutdown?
  }

  ghost predicate SomeoneTriggers(v: Vars) {
    exists t: Tid :: MayTrigger(Th(v, t))
  }

  /** How far it is to the next task that runs or is settled. */
  ghost function Distance(v: Vars): nat {
    if v.log.running != [] && v.sh.owner.Some? then OpRank(Th(v, v.sh.owner.value).op)
    else if v.log.held != [] then 0
    else if v.sh.owner.Some? && Th(v, v.sh.owner.value).drain.Popping? then 1
    else if SomeoneClaims(v) then 2
    else if v.triggered then (if v.group == {} then 3 else if v.sh.owner.None? then 4 else 5)
    else if SomeoneTriggers(v) then 6
    else 7
  }

  /** w is closer than v to the settlement of every accepted task. */
  ghost predicate Progress(w: Vars, v: Vars) {
    Unsettled(w) < Unsettled(v) || (Unsettled(w) == Unsettled(v) && Distance(w) < Distance(v))
  }

  predicate IsNewCall(s: Step) {
    s.Submit? || s.CallShutdown?
  }

  lemma RunTheTask(v: Vars) returns (s: Step)
    requires Inv(v) && v.log.running != []
    ensures Enabled(v, s) && !IsNewCall(s) && Progress(Apply(v, s), v)
  {
    var u := v.sh.owner.value;
    assert Th(v, u).drain.Running?;
    if Th(v, u).op.NoOp? {
      s := FinishTask(u);
    } else {
      s := GoOn(v, u);
    }
  }

  lemma CancelTheNext(v: Vars) returns (s: Step)
    requires Inv(v) && v.log.held != []
    ensures Enabled(v, s) && !IsNewCall(s) && Unsettled(Apply(v, s)) < Unsettled(v)
  {
    s := Cancel(v.log.flipper.value);
  }

  lemma SomeThreadIsFree(v: Vars) returns (t: Tid)
    ensures t !in v.threads
  {
    t := Beyond(v.threads.Keys);
  }

  lemma {:induction false} Beyond(s: set<Tid>) returns (bound: Tid)
    ensures forall t: Tid :: t in s ==> t < bound
    decreases |s|
  {
    bound := 0;
    if s != {} {
      var t: Tid :| t in s;
      var rest := Beyond(s - {t});
      assert forall u: Tid :: u in s ==> u == t || u in s - {t};
      bound := if t < rest then rest else t + 1;
    }
  }

  /** Nothing runs and nothing is to be cancelled, so the queue is open: whoever will serve it goes on. */
  lemma ServeTheQueue(v: Vars) returns (s: Step)
    requires Inv(v) && PlainInv(v) && v.serial && v.log.running == [] && v.log.held == [] && v.sh.tasks != []
    ensures Enabled(v, s) && !IsNewCall(s) && Progress(Apply(v, s), v)
  {
    if v.sh.owner.Some? && Th(v, v.sh.owner.value).drain.Popping? {
      s := Pop(v.sh.owner.value);
    } else if SomeoneClaims(v) {
      s := ClaimTheQueue(v);
    } else if v.triggered {
      s := FreeTheGroup(v);
    } else {
      s := TriggerTheGuard(v);
    }
  }

  lemma ClaimTheQueue(v: Vars) returns (s: Step)
    requires Inv(v) && PlainInv(v) && v.serial && v.log.running == [] && v.log.held == [] && v.sh.tasks != []
    requires SomeoneClaims(v)
    requires !(v.sh.owner.Some? && Th(v, v.sh.owner.value).drain.Popping?)
    ensures Enabled(v, s) && !IsNewCall(s) && Progress(Apply(v, s), v)
  {
    var t: Tid :| Th(v, t).drain.Claiming?;
    s := Claim(t);
    assert t in v.group && forall u: Tid :: Draining(Th(v, u).drain) ==> u in v.group;
  }

  lemma FreeTheGroup(v: Vars) returns (s: Step)
    requires Inv(v) && PlainInv(v) && v.serial && v.log.running == [] && v.log.held == [] && v.sh.tasks != []
    requires !SomeoneClaims(v) && v.triggered
    requires !(v.sh.owner.Some? && Th(v, v.sh.owner.value).drain.Popping?)
    ensures Enabled(v, s) && !IsNewCall(s) && Progress(Apply(v, s), v)
  {
    if v.group == {} {
      var r := SomeThreadIsFree(v);
      s := Execute(r);
      assert Th(Apply(v, s), r).drain.Claiming?;
      assert forall u: Tid :: Draining(Th(v, u).drain) ==> u in v.group;
    } else {
      var u: Tid :| u in v.group;
      if v.sh.owner.Some? {
        assert Draining(Th(v, v.sh.owner.value).drain) && v.sh.owner.value in v.group;
        s := Leave(v.sh.owner.value);
      } else {
        assert !Draining(Th(v, u).drain) && !Th(v, u).drain.Claiming? && !Th(v, u).drain.Outside?;
        s := Return(u);
        assert v.group - {u} == {};
      }
      OthersServe(v, s);
    }
  }

  lemma TriggerTheGuard(v: Vars) returns (s: Step)
    requires Inv(v) && PlainInv(v) && v.serial && v.log.running == [] && v.log.held == [] && v.sh.tasks != []
    requires !SomeoneClaims(v) && !v.triggered
    requires !(v.sh.owner.Some? && Th(v, v.sh.owner.value).drain.Popping?)
    ensures Enabled(v, s) && !IsNewCall(s) && Progress(Apply(v, s), v)
  {
    var t: Tid;
    if SomeoneTriggers(v) {
      t :| MayTrigger(Th(v, t));
      s := if Th(v, t).op.Triggering? then Trigger(t, true) else Flip(t);
    } else {
      t :| WillServe(Th(v, t));
      assert Draining(Th(v, t).drain) ==> v.sh.owner == Some(t);
      assert Th(v, t).op.MustWake?;
      s := WakeCheck(t);
      assert MayTrigger(Th(Apply(v, s), t));
    }
    OthersServe(v, s);
    assert forall u: Tid :: Th(Apply(v, s), u).drain == Th(v, u).drain;
  }

  lemma NextStep(v: Vars) returns (s: Step)
    requires Inv(v) && PlainInv(v) && v.serial && Unsettled(v) > 0
    ensures Enabled(v, s) && !IsNewCall(s) && Progress(Apply(v, s), v)
  {
    if v.log.running != [] {
      s := RunTheTask(v);
    } else if v.log.held != [] {
      s := CancelTheNext(v);
    } else {
      s := ServeTheQueue(v);
    }
  }

  lemma NothingUnsettled(v: Vars, id: TaskId)
    requires Inv(v) && Unsettled(v) == 0 && id in v.log.accepted
    ensures v.log.settled[id] == 1
  {
    var l := v.log;
    assert l.accepted == l.finished + l.cancelled;
    var i :| 0 <= i < |l.accepted| && l.accepted[i] == id;
    assert i == id && IsSettled(l, id);
  }

  lemma AcceptedStays(v: Vars, s: Step)
    requires Enabled(v, s) && !IsNewCall(s)
    ensures Apply(v, s).log.accepted == v.log.accepted
  {
  }

  /** Under the one-callback group every accepted task can still be settled: from every such state some run
      without new calls settles it, if the tasks that run return and wake-ups succeed. */
  lemma {:induction false} TaskCanSettle(v: Vars, id: TaskId) returns (steps: seq<Step>)
    requires Inv(v) && PlainInv(v) && v.serial && id in v.log.accepted
    ensures Runs(v, steps) && Exec(v, steps).log.settled[id] == 1
    ensures forall i :: 0 <= i < |steps| ==> !IsNewCall(steps[i])
    decreases Unsettled(v), Distance(v)
  {
    hide Inv, PlainInv, Unsettled, Distance, Apply, Enabled;
    steps := [];
    if Unsettled(v) == 0 {
      NothingUnsettled(v, id);
    } else {
      var s := NextStep(v);
      StepKeepsInv(v, s);
      StepKeepsPlain(v, s);
      AcceptedStays(v, s);
      var rest := TaskCanSettle(Apply(v, s), id);
      steps := [s] + rest;
      assert steps[1..] == rest;
    }
  }

  lemma EveryAcceptedTaskCanSettle(before: seq<Step>, id: TaskId)
    requires Runs(Init(true), before) && id in Exec(Init(true), before).log.accepted
    ensures exists after: seq<Step> ::
              && Runs(Exec(Init(true), before), after)
              && (forall i :: 0 <= i < |after| ==> !IsNewCall(after[i]))
              && Exec(Exec(Init(true), before), after).log.settled[id] == 1
  {
    RunKeepsInv(Init(true), before);
    RunKeepsPlain(Init(true), before);
    SerialIsFixed(Init(true), before);
    var after := TaskCanSettle(Exec(Init(true), before), id);
  }
}
