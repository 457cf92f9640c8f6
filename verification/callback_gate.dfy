/** CallbackGate: callbacks run between enter and leave; closing shuts the gate and waits for them.

    `Gate` holds the fields guarded by the gate's mutex, and the class is the imperative form of its
    mutex sections. `Vars` adds who is inside and who is waiting in closeAndWait(). A waiting thread
    does nothing else until its call returns. */
module CallbackGates {
  import opened Wrappers

  type Tid = nat

  datatype Concurrency = Concurrent | Exclusive

  datatype WaitMode = AllCallbacks | ExcludingCurrentThread

  datatype Gate = Gate(mode: Concurrency, closed: bool, active: nat, owner: Option<Tid>)

  predicate MayEnter(g: Gate) {
    !g.closed && (g.mode.Exclusive? ==> g.active == 0)
  }

  function Entered(g: Gate, t: Tid): Gate {
    if !MayEnter(g) then g
    else g.(active := g.active + 1, owner := if g.mode.Exclusive? then Some(t) else g.owner)
  }

  function Left(g: Gate, t: Tid): Gate
    requires g.active > 0
  {
    g.(active := g.active - 1, owner := if g.mode.Exclusive? && g.owner == Some(t) then None else g.owner)
  }

  function ToWaitFor(g: Gate, t: Tid, wait: WaitMode): nat {
    if wait.ExcludingCurrentThread? && g.mode.Exclusive? && g.active != 0 && g.owner == Some(t) then 0 else g.active
  }

  class CallbackGate {
    const concurrency: Concurrency
    var closed: bool
    var active: nat
    var exclusiveOwner: Option<Tid>

    function Abs(): Gate
      reads this
    {
      Gate(concurrency, closed, active, exclusiveOwner)
    }

    constructor (concurrency: Concurrency)
      ensures Abs() == Gate(concurrency, false, 0, None)
    {
      this.concurrency := concurrency;
      closed, active, exclusiveOwner := false, 0, None;
    }

    method TryEnter(t: Tid) returns (entered: bool)
      modifies this
      ensures entered == MayEnter(old(Abs()))
      ensures Abs() == Entered(old(Abs()), t)
      ensures entered <==> !old(closed) && (concurrency.Concurrent? || old(active) == 0)
      ensures closed == old(closed) && active == old(active) + if entered then 1 else 0
      ensures exclusiveOwner == if entered && concurrency.Exclusive? then Some(t) else old(exclusiveOwner)
    {
      if closed {
        return false;
      }
      if concurrency.Exclusive? && active != 0 {
        return false;
      }
      active := active + 1;
      if concurrency.Exclusive? {
        exclusiveOwner := Some(t);
      }
      entered := true;
    }

    method Leave(t: Tid)
      requires active > 0
      modifies this
      ensures Abs() == Left(old(Abs()), t)
      ensures closed == old(closed) && active == old(active) - 1
      ensures exclusiveOwner
              == if concurrency.Exclusive? && old(exclusiveOwner) == Some(t) then None else old(exclusiveOwner)
    {
      active := active - 1;
      if concurrency.Exclusive? {
        if exclusiveOwner == Some(t) {
          exclusiveOwner := None;
        }
      }
    }

    method CloseSection() returns (first: bool)
      modifies this`closed
      ensures first == !old(closed)
      ensures Abs() == old(Abs()).(closed := true)
    {
      first := !closed;
      closed := true;
    }

    method ActiveCallbacksToWaitFor(t: Tid, wait: WaitMode) returns (n: nat)
      ensures n == ToWaitFor(Abs(), t, wait)
      ensures n == 0 <==>
                || active == 0
                || (wait.ExcludingCurrentThread? && concurrency.Exclusive? && exclusiveOwner == Some(t))
      ensures n == 0 || n == active
    {
      if wait.AllCallbacks? {
        return active;
      }
      if concurrency.Exclusive? && active != 0 && exclusiveOwner == Some(t) {
        return 0;
      }
      n := active;
    }
  }

  // ---------------------------------------------------------------------------------------------
  // Threads
  // ---------------------------------------------------------------------------------------------

  /** inside: one occurrence of a thread per callback it is running. waiting: the threads inside
      closeAndWait(). granted: how many closers were told that they closed the gate. */
  datatype Vars = Vars(gate: Gate, inside: multiset<Tid>, waiting: map<Tid, WaitMode>, granted: nat)

  datatype Step =
    | Enter(t: Tid)
    | Leave(t: Tid)
    | Close(t: Tid, wait: WaitMode)
    | Return(t: Tid)

  predicate Enabled(v: Vars, s: Step) {
    match s
    case Enter(t) => t !in v.waiting && MayEnter(v.gate)
    case Leave(t) => t !in v.waiting && t in v.inside && v.gate.active > 0
    case Close(t, _) => t !in v.waiting
    case Return(t) => t in v.waiting && ToWaitFor(v.gate, t, v.waiting[t]) == 0
  }

  function Apply(v: Vars, s: Step): Vars
    requires Enabled(v, s)
  {
    match s
    case Enter(t) => v.(gate := Entered(v.gate, t), inside := v.inside + multiset{t})
    case Leave(t) => v.(gate := Left(v.gate, t), inside := v.inside - multiset{t})
    case Close(t, wait) =>
      v.(gate := v.gate.(closed := true), waiting := v.waiting[t := wait],
         granted := if v.gate.closed then v.granted else v.granted + 1)
    case Return(t) => v.(waiting := v.waiting - {t})
  }

  function Init(mode: Concurrency): Vars {
    Vars(Gate(mode, false, 0, None), multiset{}, map[], 0)
  }

  predicate Runs(v: Vars, steps: seq<Step>)
    decreases |steps|
  {
    steps == [] || (Enabled(v, steps[0]) && Runs(Apply(v, steps[0]), steps[1..]))
  }

  function Exec(v: Vars, steps: seq<Step>): Vars
    requires Runs(v, steps)
    decreases |steps|
  {
    if steps == [] then v else Exec(Apply(v, steps[0]), steps[1..])
  }

  /** `active_` counts the callbacks inside; in exclusive mode there is at most one and the recorded
      owner is its thread; the gate was granted to exactly one closer once it is closed. */
  ghost predicate Inv(v: Vars) {
    && v.gate.active == |v.inside|
    && (v.gate.mode.Exclusive? ==>
          if v.gate.owner.Some? then v.inside == multiset{v.gate.owner.value} else v.inside == multiset{})
    && v.granted == (if v.gate.closed then 1 else 0)
    && (v.waiting != map[] ==> v.gate.closed)
  }

  lemma StepKeepsInv(v: Vars, s: Step)
    requires Inv(v) && Enabled(v, s)
    ensures Inv(Apply(v, s))
  {
  }

  lemma {:induction false} RunKeepsInv(v: Vars, steps: seq<Step>)
    requires Inv(v) && Runs(v, steps)
    ensures Inv(Exec(v, steps))
    ensures Exec(v, steps).gate.mode == v.gate.mode
    decreases |steps|
  {
    if steps != [] {
      StepKeepsInv(v, steps[0]);
      RunKeepsInv(Apply(v, steps[0]), steps[1..]);
    }
  }

  /** In every run: the counter is the number of callbacks inside, an exclusive gate holds at most one
      and knows its thread, and one closer at most was ever told that it closed the gate. */
  lemma CountsCallbacks(mode: Concurrency, steps: seq<Step>)
    requires Runs(Init(mode), steps)
    ensures var v := Exec(Init(mode), steps);
            && v.gate.active == |v.inside|
            && (mode.Exclusive? ==> |v.inside| <= 1 && forall t: Tid :: t in v.inside <==> v.gate.owner == Some(t))
            && v.granted == (if v.gate.closed then 1 else 0)
  {
    RunKeepsInv(Init(mode), steps);
  }

  /** What is inside when closeAndWait() returns: nothing, or in exclusive mode the caller's own callback
      if the caller asked not to wait for itself. */
  lemma ReturnMeansDrained(v: Vars, t: Tid)
    requires Inv(v) && Enabled(v, Return(t))
    ensures v.gate.closed
    ensures v.inside == multiset{}
            || (v.gate.mode.Exclusive? && v.waiting[t].ExcludingCurrentThread? && v.inside == multiset{t})
  {
  }

  /** A closed gate stays closed, and what is inside afterwards was inside before. */
  lemma {:induction false} ClosedGateOnlyDrains(v: Vars, steps: seq<Step>)
    requires v.gate.closed && Runs(v, steps)
    ensures Exec(v, steps).gate.closed && Exec(v, steps).inside <= v.inside
    decreases |steps|
  {
    if steps != [] {
      ClosedGateOnlyDrains(Apply(v, steps[0]), steps[1..]);
    }
  }

  // ---------------------------------------------------------------------------------------------
  // Exactly when a closer can return
  // ---------------------------------------------------------------------------------------------

  /** A thread that waits for a callback of its own: it closed the gate from inside, in any way but the
      exclusive gate's ExcludingCurrentThread. */
  predicate WaitsForItself(v: Vars, t: Tid) {
    && t in v.inside && t in v.waiting
    && !(v.gate.mode.Exclusive? && v.waiting[t].ExcludingCurrentThread?)
  }

  ghost predicate CanReturn(v: Vars, t: Tid) {
    exists steps: seq<Step> :: Runs(v, steps) && Enabled(Exec(v, steps), Return(t))
  }

  lemma {:induction false} SelfWaitBlocks(v: Vars, u: Tid, t: Tid, steps: seq<Step>)
    requires Inv(v) && WaitsForItself(v, u) && t in v.waiting && Runs(v, steps)
    ensures !Enabled(Exec(v, steps), Return(t))
    decreases |steps|
  {
    if steps == [] {
      assert v.inside[u] > 0;
      if v.gate.mode.Exclusive? {
        assert v.inside == multiset{v.gate.owner.value};
      }
    } else {
      var s := steps[0];
      StepKeepsInv(v, s);
      SelfWaitBlocks(v, u, t, []);
      SelfWaitBlocks(v, u, u, []);
      SelfWaitBlocks(Apply(v, s), u, t, steps[1..]);
    }
  }

  ghost predicate NoSelfWait(v: Vars) {
    forall u: Tid :: u in v.inside ==> !WaitsForItself(v, u)
  }

  /** As long as t waits somebody else can go on: out of the gate, or first out of its own closeAndWait(). */
  lemma SomebodyGoesOn(v: Vars, t: Tid) returns (s: Step)
    requires Inv(v) && t in v.waiting && NoSelfWait(v) && !Enabled(v, Return(t))
    ensures Enabled(v, s)
    ensures var w := Apply(v, s);
            && t in w.waiting && NoSelfWait(w)
            && (|w.inside| < |v.inside| || (w.inside == v.inside && |w.waiting| < |v.waiting|))
  {
    var u: Tid :| u in v.inside;
    s := if u in v.waiting then Return(u) else Leave(u);
  }

  lemma {:induction false} OthersLeave(v: Vars, t: Tid)
    requires Inv(v) && t in v.waiting && NoSelfWait(v)
    ensures CanReturn(v, t)
    decreases |v.inside|, |v.waiting|
  {
    hide NoSelfWait;
    if Enabled(v, Return(t)) {
      assert Runs(v, []) && Exec(v, []) == v;
    } else {
      var s := SomebodyGoesOn(v, t);
      var w := Apply(v, s);
      StepKeepsInv(v, s);
      OthersLeave(w, t);
      var steps: seq<Step> :| Runs(w, steps) && Enabled(Exec(w, steps), Return(t));
      assert ([s] + steps)[1..] == steps;
      assert Runs(v, [s] + steps) && Exec(v, [s] + steps) == Exec(w, steps);
    }
  }

  /** closeAndWait() can still return exactly if no thread inside waits for its own callback. */
  lemma CloserReturnsUnlessSelfWait(v: Vars, t: Tid)
    requires Inv(v) && t in v.waiting
    ensures CanReturn(v, t) <==> forall u: Tid :: u in v.inside ==> !WaitsForItself(v, u)
  {
    if forall u: Tid :: u in v.inside ==> !WaitsForItself(v, u) {
      OthersLeave(v, t);
    } else {
      var u: Tid :| u in v.inside && WaitsForItself(v, u);
      forall steps: seq<Step> | Runs(v, steps) ensures !Enabled(Exec(v, steps), Return(t)) {
        SelfWaitBlocks(v, u, t, steps);
      }
    }
  }

  /** A callback that closes its own gate and waits for all callbacks: no continuation of this run lets it
      return, in either mode of the gate. */
  lemma ClosingFromInsideNeverReturns(mode: Concurrency)
    ensures exists steps: seq<Step> ::
              && Runs(Init(mode), steps)
              && var v := Exec(Init(mode), steps);
                 WaitsForItself(v, 1) && !CanReturn(v, 1)
  {
    var enter, close := Enter(1), Close(1, AllCallbacks);
    var steps := [enter, close];
    var v1 := Apply(Init(mode), enter);
    var v2 := Apply(v1, close);
    assert steps[1..] == [close] && Runs(v2, []) && Exec(v2, []) == v2;
    assert Runs(v1, [close]) && Exec(v1, [close]) == v2;
    assert Runs(Init(mode), steps) && Exec(Init(mode), steps) == v2;
    RunKeepsInv(Init(mode), steps);
    assert WaitsForItself(v2, 1);
    CloserReturnsUnlessSelfWait(v2, 1);
  }

  /** A concurrent gate lets two callbacks in, even of one thread; an exclusive one lets one in. */
  lemma SecondCallbackEnters(mode: Concurrency, t: Tid, u: Tid)
    ensures Runs(Init(mode), [Enter(t)]) && Exec(Init(mode), [Enter(t)]).inside == multiset{t}
    ensures Enabled(Exec(Init(mode), [Enter(t)]), Enter(u)) <==> mode.Concurrent?
    ensures mode.Concurrent? ==>
              Apply(Exec(Init(mode), [Enter(t)]), Enter(u)).inside == multiset{t, u}
  {
    var v := Apply(Init(mode), Enter(t));
    assert [Enter(t)][1..] == [] && Runs(v, []) && Exec(v, []) == v;
  }
}
